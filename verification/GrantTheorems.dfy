/** What every run of sign-in, device grant and provisioning requests keeps, however they interleave. */
module GrantTheorems {
  import opened Basics
  import opened Schema
  import opened GrantMachine

  // ----- What a statement may write -----

  /** Every session is still there and has evolved. */
  ghost predicate SessionsEvolve(g: Grants, g': Grants) {
    forall h :: h in g.sessions ==> h in g'.sessions && Evolves(g.sessions[h], g'.sessions[h])
  }

  /** A write that respects the links: sessions evolve or are opened for a node of their own, an owner is
      written once, and a node's owner and tokens are those of its session. */
  ghost predicate Legal(g: Grants, c: Change, now: int) {
    match c
    case PutSession(h, s) =>
      && SessionOk(s, now)
      && if h in g.sessions then Evolves(g.sessions[h], s)
         else s.status == Pending
              && (s.nodeId.Some? ==> s.nodeId.value in g.nodes && forall k :: !Bound(g, k, s.nodeId.value))
    case PutNode(n, node) =>
      if n in g.nodes then OwnerKept(g, n, node.userId) else node.userId.None?
    case PutToken(t, token) =>
      if t in g.apiTokens then token.userId == g.apiTokens[t].userId && token.nodeId == g.apiTokens[t].nodeId
      else token.nodeId.Some? ==> Linked(g, token.nodeId.value, token.userId)
    case _ => true
  }

  ghost predicate OwnerKept(g: Grants, n: string, owner: Option<string>)
    requires n in g.nodes
  {
    owner == g.nodes[n].userId || (g.nodes[n].userId.None? && owner.Some? && Linked(g, n, owner.value))
  }

  lemma OpenStatementIsLegal(cfg: Config, g: Grants, t: Task, luck: Luck, now: int)
    requires TaskOk(g, now, t) && now <= Unix(luck.now)
    requires t.OpenDevice? || t.AddDeviceNode? || t.AddDeviceSession?
    ensures Legal(g, Statement(cfg, g, t, luck).0, Unix(luck.now))
  {
  }

  lemma ApprovalStatementIsLegal(cfg: Config, g: Grants, t: Task, luck: Luck, now: int)
    requires SessionsOk(g, now) && TaskOk(g, now, t) && now <= Unix(luck.now)
    ensures Legal(g, ApprovalStatement(cfg, g, t, luck).0, Unix(luck.now))
  {
  }

  lemma PollStatementIsLegal(cfg: Config, g: Grants, t: Task, luck: Luck, now: int)
    requires SessionsOk(g, now) && TaskOk(g, now, t) && now <= Unix(luck.now)
    ensures Legal(g, PollStatement(cfg, g, t, luck).0, Unix(luck.now))
  {
    if t.StampPoll? || t.ConsumePoll? {
      assert SessionOk(g.sessions[t.h], now);
    }
  }

  lemma ProvisionStatementIsLegal(cfg: Config, g: Grants, t: Task, luck: Luck, now: int)
    requires TaskOk(g, now, t) && Provisions(t)
    ensures Legal(g, ProvisionStatement(cfg, g, t, luck).0, Unix(luck.now))
  {
    assert Linked(g, t.nodeId, t.user);
  }

  lemma StatementIsLegal(cfg: Config, g: Grants, t: Task, luck: Luck, now: int)
    requires SessionsOk(g, now) && TaskOk(g, now, t) && now <= Unix(luck.now)
    ensures Legal(g, Statement(cfg, g, t, luck).0, Unix(luck.now))
  {
    if t.OpenDevice? || t.AddDeviceNode? || t.AddDeviceSession? {
      OpenStatementIsLegal(cfg, g, t, luck, now);
    } else if Provisions(t) {
      ProvisionStatementIsLegal(cfg, g, t, luck, now);
    } else {
      PollStatementIsLegal(cfg, g, t, luck, now);
      ApprovalStatementIsLegal(cfg, g, t, luck, now);
    }
  }

  /** Every step writes legally. */
  lemma StepIsLegal(cfg: Config, s: Site, step: Step)
    requires Inv(cfg, s) && Enabled(s, step)
    ensures Legal(s.g, Effect(cfg, s, step), Unix(Time(s, step)))
  {
    if step.Run? {
      UnixMonotone(s.clock, step.luck.now);
      assert JobOk(cfg, s.g, Unix(s.clock), s.jobs[step.job]);
      StatementIsLegal(cfg, s.g, s.jobs[step.job].at, step.luck, Unix(s.clock));
    }
  }

  // ----- What a legal write keeps -----

  lemma LegalKeepsSessions(g: Grants, c: Change, now: int)
    requires Legal(g, c, now)
    ensures SessionsEvolve(g, Apply(g, c))
  {
  }

  lemma LinkedStays(g: Grants, g': Grants, now: int, n: string, user: string)
    requires SessionsOk(g, now) && SessionsEvolve(g, g') && Linked(g, n, user)
    ensures Linked(g', n, user)
  {
    var h :| Bound(g, h, n) && g.sessions[h].userId == Some(user);
    assert SessionOk(g.sessions[h], now) && Bound(g', h, n);
  }

  /** Which sessions a write binds to nodes. */
  lemma BoundAfter(g: Grants, c: Change, now: int, h: string, n: string)
    requires Legal(g, c, now) && Bound(Apply(g, c), h, n)
    ensures Bound(g, h, n) || (c.PutSession? && c.hash == h && h !in g.sessions && c.session.nodeId == Some(n))
  {
  }

  lemma LegalKeepsBindings(g: Grants, c: Change, now: int)
    requires Links(g) && Legal(g, c, now)
    ensures var g' := Apply(g, c);
            && (forall h, n :: Bound(g', h, n) ==> n in g'.nodes)
            && (forall h, k, n :: Bound(g', h, n) && Bound(g', k, n) ==> h == k)
  {
    var g' := Apply(g, c);
    forall h, n | Bound(g', h, n)
      ensures n in g'.nodes
    {
      BoundAfter(g, c, now, h, n);
    }
    forall h, k, n | Bound(g', h, n) && Bound(g', k, n)
      ensures h == k
    {
      BoundAfter(g, c, now, h, n);
      BoundAfter(g, c, now, k, n);
    }
  }

  lemma LegalKeepsOwners(g: Grants, c: Change, was: int, now: int)
    requires Links(g) && SessionsOk(g, was) && Legal(g, c, now)
    ensures var g' := Apply(g, c);
            && (forall t :: t in g'.apiTokens && g'.apiTokens[t].nodeId.Some? ==>
                  Linked(g', g'.apiTokens[t].nodeId.value, g'.apiTokens[t].userId))
            && (forall n :: n in g'.nodes && g'.nodes[n].userId.Some? ==> Linked(g', n, g'.nodes[n].userId.value))
  {
    var g' := Apply(g, c);
    LegalKeepsSessions(g, c, now);
    forall n, user | Linked(g, n, user)
      ensures Linked(g', n, user)
    {
      LinkedStays(g, g', was, n, user);
    }
  }

  lemma LegalKeepsLinks(g: Grants, c: Change, was: int, now: int)
    requires Links(g) && SessionsOk(g, was) && Legal(g, c, now)
    ensures Links(Apply(g, c))
  {
    LegalKeepsBindings(g, c, now);
    LegalKeepsOwners(g, c, was, now);
  }

  lemma LegalKeepsSessionsOk(g: Grants, c: Change, was: int, now: int)
    requires SessionsOk(g, was) && was <= now && Legal(g, c, now)
    ensures SessionsOk(Apply(g, c), now)
  {
    forall h | h in Apply(g, c).sessions
      ensures SessionOk(Apply(g, c).sessions[h], now)
    {
      assert h in g.sessions ==> SessionOk(g.sessions[h], was);
    }
  }

  // ----- What requests know stays true -----

  /** What a request knows is not disturbed by the write of another one, unless that one opens the session
      for its node. */
  lemma TaskStaysOk(g: Grants, c: Change, was: int, now: int, t: Task)
    requires SessionsOk(g, was) && was <= now && Legal(g, c, now) && TaskOk(g, was, t)
    requires t.AddDeviceSession? && t.node.Some? && c.PutSession? && c.hash !in g.sessions ==>
               c.session.nodeId != t.node
    ensures TaskOk(Apply(g, c), now, t)
  {
    var g' := Apply(g, c);
    LegalKeepsSessions(g, c, now);
    if t.AddDeviceSession? && t.node.Some? {
      forall h
        ensures !Bound(g', h, t.node.value)
      {
        if Bound(g', h, t.node.value) {
          BoundAfter(g, c, now, h, t.node.value);
        }
      }
    }
  }

  /** What a request knows after its own statement. */
  ghost predicate OkAfter(cfg: Config, g: Grants, t: Task, luck: Luck) {
    TaskOk(Apply(g, Statement(cfg, g, t, luck).0), Unix(luck.now), Statement(cfg, g, t, luck).1)
  }

  lemma NewNodeIsUnbound(g: Grants, n: string, node: Node, h: string)
    requires Links(g) && n !in g.nodes
    ensures !Bound(Apply(g, PutNode(n, node)), h, n)
  {
    assert Bound(Apply(g, PutNode(n, node)), h, n) ==> Bound(g, h, n);
  }

  lemma TaskAfterOpen(cfg: Config, g: Grants, t: Task, luck: Luck, was: int)
    requires Links(g) && TaskOk(g, was, t) && was <= Unix(luck.now) && (t.OpenDevice? || t.AddDeviceNode?)
    ensures OkAfter(cfg, g, t, luck)
  {
    if t.AddDeviceNode? && luck.drawn !in g.nodes {
      var node := NewNode(t.nodeType, t.endpoint, t.key, t.openedAt);
      forall h
        ensures !Bound(Apply(g, PutNode(luck.drawn, node)), h, luck.drawn)
      {
        NewNodeIsUnbound(g, luck.drawn, node, h);
      }
    }
  }

  predicate Polls(t: Task) {
    t.StartPoll? || t.JudgePoll? || t.StampPoll? || t.ConsumePoll? || t.AddPollToken?
  }

  lemma TaskAfterLookup(cfg: Config, g: Grants, t: Task, luck: Luck, was: int)
    requires SessionsOk(g, was) && TaskOk(g, was, t) && (t.StartPoll? || t.JudgePoll? || t.StampPoll?)
    ensures OkAfter(cfg, g, t, luck)
  {
    if t.StartPoll? && cfg.hash(t.code) in g.sessions {
      assert SessionOk(g.sessions[cfg.hash(t.code)], was);
    }
    if t.JudgePoll? {
      assert SessionOk(g.sessions[t.h], was);
    }
  }

  lemma TaskAfterConsume(cfg: Config, g: Grants, t: Task, luck: Luck, was: int)
    requires SessionsOk(g, was) && TaskOk(g, was, t) && (t.ConsumePoll? || t.AddPollToken?)
    ensures OkAfter(cfg, g, t, luck)
  {
    assert SessionOk(g.sessions[t.h], was);
  }

  predicate Approves(t: Task) {
    t.ApproveByLink? || t.AddApprovalToken? || t.ReadApproval?
  }

  lemma TaskAfterApproval(cfg: Config, g: Grants, t: Task, luck: Luck, was: int)
    requires TaskOk(g, was, t) && Approves(t)
    ensures OkAfter(cfg, g, t, luck)
  {
  }

  lemma TaskAfterProvision(cfg: Config, g: Grants, t: Task, luck: Luck, was: int)
    requires TaskOk(g, was, t) && Provisions(t)
    ensures OkAfter(cfg, g, t, luck)
  {
  }

  lemma TaskAfterOther(cfg: Config, g: Grants, t: Task, luck: Luck)
    requires !t.OpenDevice? && !t.AddDeviceNode? && !Polls(t) && !Approves(t) && !Provisions(t) && !t.Done?
    ensures OkAfter(cfg, g, t, luck)
  {
  }

  lemma TaskAfterStatement(cfg: Config, g: Grants, t: Task, luck: Luck, was: int)
    requires SessionsOk(g, was) && Links(g) && TaskOk(g, was, t) && was <= Unix(luck.now) && !t.Done?
    ensures OkAfter(cfg, g, t, luck)
  {
    if t.OpenDevice? || t.AddDeviceNode? {
      TaskAfterOpen(cfg, g, t, luck, was);
    } else if Provisions(t) {
      TaskAfterProvision(cfg, g, t, luck, was);
    } else if t.StartPoll? || t.JudgePoll? || t.StampPoll? {
      TaskAfterLookup(cfg, g, t, luck, was);
    } else if Polls(t) {
      TaskAfterConsume(cfg, g, t, luck, was);
    } else if Approves(t) {
      TaskAfterApproval(cfg, g, t, luck, was);
    } else {
      TaskAfterOther(cfg, g, t, luck);
    }
  }

  lemma StoryAfterPoll(cfg: Config, g: Grants, job: Job, luck: Luck)
    requires StoryOk(cfg, job) && AnswerOk(job) && Polls(job.at)
    ensures var job' := Job(job.start, Statement(cfg, g, job.at, luck).1); StoryOk(cfg, job') && AnswerOk(job')
  {
  }

  lemma StoryAfterProvision(cfg: Config, g: Grants, job: Job, luck: Luck)
    requires StoryOk(cfg, job) && Provisions(job.at)
    ensures var job' := Job(job.start, Statement(cfg, g, job.at, luck).1); StoryOk(cfg, job') && AnswerOk(job')
  {
  }

  lemma StoryAfterStatement(cfg: Config, g: Grants, job: Job, luck: Luck)
    requires StoryOk(cfg, job) && AnswerOk(job) && !job.at.Done?
    ensures var job' := Job(job.start, Statement(cfg, g, job.at, luck).1); StoryOk(cfg, job') && AnswerOk(job')
  {
    if Polls(job.at) {
      StoryAfterPoll(cfg, g, job, luck);
    } else if Provisions(job.at) {
      StoryAfterProvision(cfg, g, job, luck);
    }
  }

  /** A request is about to open a session for a node only if it has just added that node or was so before. */
  lemma OpeningAfter(cfg: Config, g: Grants, job: Job, luck: Luck, n: string)
    requires !job.at.Done? && Opening(Job(job.start, Statement(cfg, g, job.at, luck).1), n)
    ensures job.at.AddDeviceNode? && n !in g.nodes
  {
  }

  lemma RunKeepsOpenNodes(cfg: Config, s: Site, i: nat, luck: Luck)
    requires Inv(cfg, s) && Enabled(s, Run(i, luck))
    ensures OpenNodesDiffer(Jobs(cfg, s, Run(i, luck)))
  {
    var jobs := Jobs(cfg, s, Run(i, luck));
    forall k, n | 0 <= k < |jobs| && k != i && Opening(jobs[k], n)
      ensures n in s.g.nodes
    {
      assert JobOk(cfg, s.g, Unix(s.clock), s.jobs[k]);
    }
    forall n | Opening(jobs[i], n)
      ensures n !in s.g.nodes
    {
      OpeningAfter(cfg, s.g, s.jobs[i], luck, n);
    }
  }

  /** The write of request `i` opens no session for the node of another request. */
  lemma OtherNodesUntouched(cfg: Config, s: Site, i: nat, luck: Luck, j: nat)
    requires Inv(cfg, s) && Enabled(s, Run(i, luck)) && j < |s.jobs| && j != i
    requires var c := Effect(cfg, s, Run(i, luck));
             c.PutSession? && c.hash !in s.g.sessions && s.jobs[j].at.AddDeviceSession?
    ensures var c := Effect(cfg, s, Run(i, luck)); s.jobs[j].at.node.Some? ==> c.session.nodeId != s.jobs[j].at.node
  {
    var c := Effect(cfg, s, Run(i, luck));
    assert s.jobs[i].at.AddDeviceSession? && c.session.nodeId == s.jobs[i].at.node;
    if s.jobs[j].at.node.Some? && c.session.nodeId == s.jobs[j].at.node {
      assert Opening(s.jobs[i], s.jobs[j].at.node.value) && Opening(s.jobs[j], s.jobs[j].at.node.value);
    }
  }

  lemma JobStaysOk(cfg: Config, s: Site, step: Step, j: nat)
    requires Inv(cfg, s) && Enabled(s, step) && j < |s.jobs| && (step.Run? ==> step.job != j)
    ensures JobOk(cfg, Next(cfg, s, step).g, Unix(Next(cfg, s, step).clock), s.jobs[j])
  {
    StepIsLegal(cfg, s, step);
    UnixMonotone(s.clock, Time(s, step));
    assert JobOk(cfg, s.g, Unix(s.clock), s.jobs[j]);
    var c := Effect(cfg, s, step);
    if step.Run? && c.PutSession? && c.hash !in s.g.sessions && s.jobs[j].at.AddDeviceSession? {
      OtherNodesUntouched(cfg, s, step.job, step.luck, j);
    }
    TaskStaysOk(s.g, c, Unix(s.clock), Unix(Time(s, step)), s.jobs[j].at);
  }

  lemma RunJobIsOk(cfg: Config, s: Site, i: nat, luck: Luck)
    requires Inv(cfg, s) && Enabled(s, Run(i, luck))
    ensures var s' := Next(cfg, s, Run(i, luck)); JobOk(cfg, s'.g, Unix(s'.clock), s'.jobs[i])
  {
    UnixMonotone(s.clock, luck.now);
    assert JobOk(cfg, s.g, Unix(s.clock), s.jobs[i]);
    TaskAfterStatement(cfg, s.g, s.jobs[i].at, luck, Unix(s.clock));
    StoryAfterStatement(cfg, s.g, s.jobs[i], luck);
  }

  lemma StepKeepsJobs(cfg: Config, s: Site, step: Step)
    requires Inv(cfg, s) && Enabled(s, step)
    ensures var s' := Next(cfg, s, step); JobsOk(cfg, s'.g, Unix(s'.clock), s'.jobs)
  {
    var s' := Next(cfg, s, step);
    forall j | 0 <= j < |s'.jobs|
      ensures JobOk(cfg, s'.g, Unix(s'.clock), s'.jobs[j])
    {
      if step.Run? && step.job == j {
        RunJobIsOk(cfg, s, j, step.luck);
      } else if j < |s.jobs| {
        JobStaysOk(cfg, s, step, j);
      }
    }
    if step.Run? {
      RunKeepsOpenNodes(cfg, s, step.job, step.luck);
    } else {
      forall j, k, n | 0 <= j < |s'.jobs| && 0 <= k < |s'.jobs| && Opening(s'.jobs[j], n) && Opening(s'.jobs[k], n)
        ensures j == k
      {
        assert j < |s.jobs| && k < |s.jobs|;
      }
    }
  }

  lemma StepKeepsInv(cfg: Config, s: Site, step: Step)
    requires Inv(cfg, s) && Enabled(s, step)
    ensures Inv(cfg, Next(cfg, s, step))
  {
    StepIsLegal(cfg, s, step);
    UnixMonotone(s.clock, Time(s, step));
    var c, was, now := Effect(cfg, s, step), Unix(s.clock), Unix(Time(s, step));
    LegalKeepsLinks(s.g, c, was, now);
    LegalKeepsSessionsOk(s.g, c, was, now);
    StepKeepsJobs(cfg, s, step);
  }

  /** In every reachable state sessions, nodes and tokens agree, however the requests interleave and
      whichever statements failed. */
  lemma {:induction false} Reachable(cfg: Config, ss: seq<Site>, steps: seq<Step>, i: nat)
    requires IsTrace(cfg, ss, steps) && Inv(cfg, ss[0]) && i < |ss|
    ensures Inv(cfg, ss[i])
  {
    if i > 0 {
      Reachable(cfg, ss, steps, i - 1);
      assert StepAt(cfg, ss, steps, i - 1);
      StepKeepsInv(cfg, ss[i - 1], steps[i - 1]);
    }
  }

  // ----- Sessions -----

  lemma StepEvolvesSessions(cfg: Config, s: Site, step: Step)
    requires Inv(cfg, s) && Enabled(s, step)
    ensures SessionsEvolve(s.g, Next(cfg, s, step).g)
  {
    StepIsLegal(cfg, s, step);
    LegalKeepsSessions(s.g, Effect(cfg, s, step), Unix(Time(s, step)));
  }

  lemma SessionsEvolveAt(cfg: Config, ss: seq<Site>, steps: seq<Step>, k: nat)
    requires IsTrace(cfg, ss, steps) && Inv(cfg, ss[0]) && k < |steps|
    ensures SessionsEvolve(ss[k].g, ss[k + 1].g)
  {
    Reachable(cfg, ss, steps, k);
    assert StepAt(cfg, ss, steps, k);
    StepEvolvesSessions(cfg, ss[k], steps[k]);
  }

  lemma EvolvesIsTransitive(s: Session, m: Session, s': Session)
    requires Evolves(s, m) && Evolves(m, s')
    ensures Evolves(s, s')
  {
  }

  /** Over any stretch of a run a session keeps its identity and deadlines, its status only moves forward,
      the data of an approval stay, and a consumed session changes in nothing but its poll stamp. */
  lemma {:induction false} SessionEvolves(cfg: Config, ss: seq<Site>, steps: seq<Step>, i: nat, j: nat, h: string)
    requires IsTrace(cfg, ss, steps) && Inv(cfg, ss[0]) && i <= j < |ss| && h in ss[i].g.sessions
    ensures h in ss[j].g.sessions && Evolves(ss[i].g.sessions[h], ss[j].g.sessions[h])
  {
    if i < j {
      SessionEvolves(cfg, ss, steps, i, j - 1, h);
      SessionsEvolveAt(cfg, ss, steps, j - 1);
      EvolvesIsTransitive(ss[i].g.sessions[h], ss[j - 1].g.sessions[h], ss[j].g.sessions[h]);
    }
  }

  lemma {:induction false} ClockGrows(cfg: Config, ss: seq<Site>, steps: seq<Step>, i: nat, j: nat)
    requires IsTrace(cfg, ss, steps) && i <= j < |ss|
    ensures ss[i].clock <= ss[j].clock
  {
    if i < j {
      ClockGrows(cfg, ss, steps, i, j - 1);
      assert StepAt(cfg, ss, steps, j - 1);
    }
  }

  lemma InitialIsOk(cfg: Config, s: Site)
    requires Initial(s)
    ensures Inv(cfg, s)
  {
  }

  // ----- Ownership -----

  /** A step keeps every node and never overwrites an owner. */
  lemma StepKeepsOwner(cfg: Config, s: Site, step: Step, n: string)
    requires Inv(cfg, s) && Enabled(s, step) && n in s.g.nodes
    ensures n in Next(cfg, s, step).g.nodes
    ensures s.g.nodes[n].userId.Some? ==> Next(cfg, s, step).g.nodes[n].userId == s.g.nodes[n].userId
  {
    StepIsLegal(cfg, s, step);
  }

  lemma OwnerKeptAt(cfg: Config, ss: seq<Site>, steps: seq<Step>, k: nat, n: string)
    requires IsTrace(cfg, ss, steps) && Inv(cfg, ss[0]) && k < |steps| && n in ss[k].g.nodes
    ensures n in ss[k + 1].g.nodes
    ensures ss[k].g.nodes[n].userId.Some? ==> ss[k + 1].g.nodes[n].userId == ss[k].g.nodes[n].userId
  {
    Reachable(cfg, ss, steps, k);
    assert StepAt(cfg, ss, steps, k);
    StepKeepsOwner(cfg, ss[k], steps[k], n);
  }

  /** An owner, once written, is there for good. */
  lemma {:induction false} OwnerWrittenOnce(cfg: Config, ss: seq<Site>, steps: seq<Step>, i: nat, j: nat, n: string)
    requires IsTrace(cfg, ss, steps) && Inv(cfg, ss[0]) && i <= j < |ss|
    requires n in ss[i].g.nodes && ss[i].g.nodes[n].userId.Some?
    ensures n in ss[j].g.nodes && ss[j].g.nodes[n].userId == ss[i].g.nodes[n].userId
  {
    if i < j {
      OwnerWrittenOnce(cfg, ss, steps, i, j - 1, n);
      OwnerKeptAt(cfg, ss, steps, j - 1, n);
    }
  }

  /** In every reachable state a token bound to a node carries the user of the one session opened for
      that node, who is also the node's owner once the node has one. */
  lemma OwnershipAgrees(cfg: Config, ss: seq<Site>, steps: seq<Step>, i: nat, t: string) returns (h: string)
    requires IsTrace(cfg, ss, steps) && Initial(ss[0]) && i < |ss|
    requires t in ss[i].g.apiTokens && ss[i].g.apiTokens[t].nodeId.Some?
    ensures var g := ss[i].g;
            var token := g.apiTokens[t];
            var n := token.nodeId.value;
            && n in g.nodes
            && h in g.sessions && g.sessions[h].nodeId == Some(n)
            && (forall k :: k in g.sessions && g.sessions[k].nodeId == Some(n) ==> k == h)
            && g.sessions[h].userId == Some(token.userId)
            && (g.nodes[n].userId.Some? ==> g.nodes[n].userId == Some(token.userId))
  {
    Reachable(cfg, ss, steps, i);
    var g := ss[i].g;
    var n := g.apiTokens[t].nodeId.value;
    assert Linked(g, n, g.apiTokens[t].userId);
    h :| Bound(g, h, n) && g.sessions[h].userId == Some(g.apiTokens[t].userId);
    assert forall k :: k in g.sessions && g.sessions[k].nodeId == Some(n) ==> Bound(g, k, n);
  }

  // ----- Magic links -----

  /** The step follows the link with this hash. */
  predicate Follows(cfg: Config, s: Site, step: Step, hash: string) {
    step.Run? && step.job < |s.jobs| && s.jobs[step.job].at.FollowLink? && cfg.hash(s.jobs[step.job].at.token) == hash
  }

  /** The step redeems the link: it is unused and unexpired, and the statement succeeds. */
  predicate Redeems(cfg: Config, s: Site, step: Step, hash: string) {
    Follows(cfg, s, step, hash) && step.luck.up && hash in s.g.magic
    && s.g.magic[hash].usedAt.None? && s.g.magic[hash].expiresAt >= Unix(step.luck.now)
  }

  lemma StepKeepsUsedLink(cfg: Config, s: Site, step: Step, hash: string)
    requires Enabled(s, step) && hash in s.g.magic && s.g.magic[hash].usedAt.Some?
    ensures hash in Next(cfg, s, step).g.magic && Next(cfg, s, step).g.magic[hash] == s.g.magic[hash]
  {
  }

  lemma {:induction false} UsedLinkStays(cfg: Config, ss: seq<Site>, steps: seq<Step>, i: nat, j: nat, hash: string)
    requires IsTrace(cfg, ss, steps) && i <= j < |ss| && hash in ss[i].g.magic && ss[i].g.magic[hash].usedAt.Some?
    ensures hash in ss[j].g.magic && ss[j].g.magic[hash] == ss[i].g.magic[hash]
  {
    if i < j {
      UsedLinkStays(cfg, ss, steps, i, j - 1, hash);
      assert StepAt(cfg, ss, steps, j - 1);
      StepKeepsUsedLink(cfg, ss[j - 1], steps[j - 1], hash);
    }
  }

  lemma FollowedWell(cfg: Config, s: Site, step: Step, hash: string)
    requires Enabled(s, step) && Redeems(cfg, s, step, hash)
    ensures var magic := Next(cfg, s, step).g.magic;
            hash in magic && magic[hash].usedAt == Some(Unix(step.luck.now))
  {
  }

  lemma FollowedInVain(cfg: Config, s: Site, step: Step, hash: string)
    requires Enabled(s, step) && Follows(cfg, s, step, hash) && !Redeems(cfg, s, step, hash)
    ensures var s' := Next(cfg, s, step);
            && s'.g == s.g && step.job < |s'.jobs| && s'.jobs[step.job].at in {Done(NotConsumed), Done(Broken)}
  {
  }

  /** However requests interleave, a magic link is redeemed at most once, even when the request that
      followed it failed later on; following it in vain writes nothing and ends the request. */
  lemma MagicLinkIsSingleUse(cfg: Config, ss: seq<Site>, steps: seq<Step>, i: nat, j: nat, hash: string)
    requires IsTrace(cfg, ss, steps) && i <= j < |steps|
    requires Follows(cfg, ss[i], steps[i], hash) && Follows(cfg, ss[j], steps[j], hash)
    ensures Redeems(cfg, ss[i], steps[i], hash) && Redeems(cfg, ss[j], steps[j], hash) ==> i == j
    ensures Redeems(cfg, ss[j], steps[j], hash) ==>
              hash in ss[j + 1].g.magic && ss[j + 1].g.magic[hash].usedAt == Some(Unix(steps[j].luck.now))
    ensures !Redeems(cfg, ss[j], steps[j], hash) ==>
              && ss[j + 1].g == ss[j].g && steps[j].job < |ss[j + 1].jobs|
              && ss[j + 1].jobs[steps[j].job].at in {Done(NotConsumed), Done(Broken)}
  {
    assert StepAt(cfg, ss, steps, j);
    if Redeems(cfg, ss[j], steps[j], hash) {
      FollowedWell(cfg, ss[j], steps[j], hash);
    } else {
      FollowedInVain(cfg, ss[j], steps[j], hash);
    }
    if Redeems(cfg, ss[i], steps[i], hash) && i < j {
      assert StepAt(cfg, ss, steps, i);
      FollowedWell(cfg, ss[i], steps[i], hash);
      UsedLinkStays(cfg, ss, steps, i + 1, j, hash);
    }
  }

  // ----- The history of a poll -----

  /** Step `k` runs a statement of request `i`. */
  predicate Runs(steps: seq<Step>, k: nat, i: nat) {
    k < |steps| && steps[k].Run? && steps[k].job == i
  }

  /** Step `r` is the lookup of request `i`, which polls for session `h`. */
  predicate LooksUp(cfg: Config, ss: seq<Site>, steps: seq<Step>, r: nat, i: nat, h: string) {
    && Runs(steps, r, i) && r < |ss| && i < |ss[r].jobs|
    && ss[r].jobs[i].at.StartPoll? && cfg.hash(ss[r].jobs[i].at.code) == h
  }

  lemma JobsStay(cfg: Config, s: Site, step: Step, i: nat)
    requires Enabled(s, step) && i < |Next(cfg, s, step).jobs|
    ensures i < |s.jobs| ==>
              && Next(cfg, s, step).jobs[i].start == s.jobs[i].start
              && ((step.Run? && step.job == i) || Next(cfg, s, step).jobs[i] == s.jobs[i])
    ensures i >= |s.jobs| ==> step.Begin? && Next(cfg, s, step).jobs[i] == Job(step.start, step.start)
  {
  }

  /** The step that brought request `i` to its present task, which it did not begin with. */
  lemma {:induction false} CameTo(cfg: Config, ss: seq<Site>, steps: seq<Step>, n: nat, i: nat) returns (k: nat)
    requires IsTrace(cfg, ss, steps) && ss[0].jobs == [] && n < |ss| && i < |ss[n].jobs| && !Starts(ss[n].jobs[i].at)
    ensures k < n && Runs(steps, k, i) && i < |ss[k].jobs| && Enabled(ss[k], steps[k])
    ensures ss[n].jobs[i].at == Statement(cfg, ss[k].g, ss[k].jobs[i].at, steps[k].luck).1
    ensures forall m :: k < m <= n ==> i < |ss[m].jobs| && ss[m].jobs[i] == ss[n].jobs[i]
  {
    assert n > 0;
    assert StepAt(cfg, ss, steps, n - 1);
    JobsStay(cfg, ss[n - 1], steps[n - 1], i);
    if Runs(steps, n - 1, i) {
      k := n - 1;
    } else {
      k := CameTo(cfg, ss, steps, n - 1, i);
    }
  }

  /** A poll that is about to stamp its session was judged by the row its lookup had read. */
  lemma StampHistory(cfg: Config, ss: seq<Site>, steps: seq<Step>, n: nat, i: nat) returns (r: nat, q: nat)
    requires IsTrace(cfg, ss, steps) && Initial(ss[0]) && n < |ss| && i < |ss[n].jobs| && ss[n].jobs[i].at.StampPoll?
    ensures r < q < n && Runs(steps, q, i)
    ensures var h := ss[n].jobs[i].at.h;
            && LooksUp(cfg, ss, steps, r, i, h) && h in ss[r].g.sessions
            && var seen := ss[r].g.sessions[h];
               seen.expiresAt >= Unix(steps[q].luck.now) && !PolledTooSoon(seen, Unix(steps[q].luck.now))
  {
    q := CameTo(cfg, ss, steps, n, i);
    assert ss[q].jobs[i].at.JudgePoll?;
    r := CameTo(cfg, ss, steps, q, i);
  }
}
