/** Whose token a node's stored digest is. */
module GrantKeys {
  import opened Basics
  import opened Schema
  import opened GrantMachine
  import opened GrantTheorems
  import opened GrantAnswers

  // ----- A stored digest is that of a token of the node -----

  predicate IsNodeToken(g: Grants, hash: string, n: string) {
    hash in g.apiTokens && g.apiTokens[hash].nodeId == Some(n) && g.apiTokens[hash].scope == "node:push"
  }

  predicate HashesAreTokens(g: Grants) {
    forall n :: n in g.nodes && g.nodes[n].tokenHash.Some? ==> IsNodeToken(g, g.nodes[n].tokenHash.value, n)
  }

  /** Which statement writes the token digest of a node. */
  predicate WritesHash(t: Task, n: string) {
    t.SetTokenHash? && t.nodeId == n
  }

  lemma ProvisionKeepsHashesBut(cfg: Config, g: Grants, t: Task, luck: Luck, n: string)
    requires n in g.nodes && !WritesHash(t, n)
    ensures var g' := Apply(g, ProvisionStatement(cfg, g, t, luck).0);
            n in g'.nodes && g'.nodes[n].tokenHash == g.nodes[n].tokenHash
  {
  }

  lemma OthersKeepHashes(cfg: Config, g: Grants, t: Task, luck: Luck, n: string)
    requires n in g.nodes && !Provisions(t)
    ensures var g' := Apply(g, Statement(cfg, g, t, luck).0);
            n in g'.nodes && g'.nodes[n].tokenHash == g.nodes[n].tokenHash
  {
    if !t.AddDeviceNode? {
      WritesNoNode(cfg, g, t, luck);
      WithoutNodeWrite(g, Statement(cfg, g, t, luck).0);
    }
  }

  lemma PollsWriteNoNode(cfg: Config, g: Grants, t: Task, luck: Luck)
    requires Polls(t)
    ensures !Statement(cfg, g, t, luck).0.PutNode?
  {
  }

  lemma OthersWriteNoNode(cfg: Config, g: Grants, t: Task, luck: Luck)
    requires !Polls(t) && !Provisions(t) && !t.OpenDevice? && !t.AddDeviceNode? && !t.AddDeviceSession?
    ensures !Statement(cfg, g, t, luck).0.PutNode?
  {
  }

  lemma HashesStayBut(cfg: Config, g: Grants, t: Task, luck: Luck, n: string)
    requires n in g.nodes && !WritesHash(t, n)
    ensures var g' := Apply(g, Statement(cfg, g, t, luck).0);
            n in g'.nodes && g'.nodes[n].tokenHash == g.nodes[n].tokenHash
  {
    if Provisions(t) {
      ProvisionKeepsHashesBut(cfg, g, t, luck, n);
    } else {
      OthersKeepHashes(cfg, g, t, luck, n);
    }
  }

  lemma HashIsWritten(cfg: Config, g: Grants, t: Task, luck: Luck)
    requires t.SetTokenHash? && t.nodeId in g.nodes && luck.up
    ensures var g' := Apply(g, Statement(cfg, g, t, luck).0);
            t.nodeId in g'.nodes && g'.nodes[t.nodeId].tokenHash == Some(cfg.hash(t.nodeToken))
  {
  }

  /** A statement leaves the digest of a node or writes that of the token its request has issued for it. */
  lemma HashAfter(cfg: Config, g: Grants, start: Task, t: Task, luck: Luck, n: string)
    requires TaskTrue(cfg, g, start, t) && n in g.nodes
    ensures var g' := Apply(g, Statement(cfg, g, t, luck).0);
            && n in g'.nodes
            && (|| g'.nodes[n].tokenHash == g.nodes[n].tokenHash
                || (g'.nodes[n].tokenHash.Some? && IsNodeToken(g, g'.nodes[n].tokenHash.value, n)))
  {
    if !WritesHash(t, n) {
      HashesStayBut(cfg, g, t, luck, n);
    } else if luck.up {
      HashIsWritten(cfg, g, t, luck);
      assert ProvisionTrue(cfg, g, start, t);
    }
  }

  lemma NewNodesHaveNoHash(cfg: Config, g: Grants, t: Task, luck: Luck, n: string)
    requires n !in g.nodes && n in Apply(g, Statement(cfg, g, t, luck).0).nodes
    ensures Apply(g, Statement(cfg, g, t, luck).0).nodes[n].tokenHash.None?
  {
    if !t.AddDeviceNode? {
      OnlyOpeningAddsNodes(cfg, g, t, luck);
    }
  }

  lemma OnlyOpeningAddsNodes(cfg: Config, g: Grants, t: Task, luck: Luck)
    requires !t.AddDeviceNode?
    ensures Apply(g, Statement(cfg, g, t, luck).0).nodes.Keys == g.nodes.Keys
  {
    if Provisions(t) {
      ProvisionAddsNoNode(cfg, g, t, luck);
    } else {
      WritesNoNode(cfg, g, t, luck);
      WithoutNodeWrite(g, Statement(cfg, g, t, luck).0);
    }
  }

  lemma WithoutNodeWrite(g: Grants, c: Change)
    requires !c.PutNode?
    ensures Apply(g, c).nodes == g.nodes
  {
  }

  lemma WritesNoNode(cfg: Config, g: Grants, t: Task, luck: Luck)
    requires !Provisions(t) && !t.AddDeviceNode?
    ensures !Statement(cfg, g, t, luck).0.PutNode?
  {
    if Polls(t) {
      PollsWriteNoNode(cfg, g, t, luck);
    } else if t.OpenDevice? || t.AddDeviceSession? {
      OpeningWritesNoNode(cfg, g, t, luck);
    } else {
      OthersWriteNoNode(cfg, g, t, luck);
    }
  }

  lemma OpeningWritesNoNode(cfg: Config, g: Grants, t: Task, luck: Luck)
    requires t.OpenDevice? || t.AddDeviceSession?
    ensures !Statement(cfg, g, t, luck).0.PutNode?
  {
  }

  lemma ProvisionAddsNoNode(cfg: Config, g: Grants, t: Task, luck: Luck)
    requires Provisions(t)
    ensures Apply(g, Statement(cfg, g, t, luck).0).nodes.Keys == g.nodes.Keys
  {
  }

  lemma StepKeepsHashesTokens(cfg: Config, s: Site, step: Step)
    requires Inv(cfg, s) && AllTrue(cfg, s) && Enabled(s, step) && HashesAreTokens(s.g)
    ensures HashesAreTokens(Next(cfg, s, step).g)
  {
    var g' := Next(cfg, s, step).g;
    StepKeeps(cfg, s, step);
    forall n | n in g'.nodes && g'.nodes[n].tokenHash.Some?
      ensures IsNodeToken(g', g'.nodes[n].tokenHash.value, n)
    {
      if step.Run? {
        var job := s.jobs[step.job];
        if n in s.g.nodes {
          HashAfter(cfg, s.g, job.start, job.at, step.luck, n);
        } else {
          NewNodesHaveNoHash(cfg, s.g, job.at, step.luck, n);
        }
      }
    }
  }

  /** Whatever interleaves and fails, a node's stored digest is that of a token issued for that node, with the scope
      to push. */
  lemma {:induction false} HashesAlwaysTokens(cfg: Config, ss: seq<Site>, steps: seq<Step>, i: nat)
    requires IsTrace(cfg, ss, steps) && Initial(ss[0]) && i < |ss|
    ensures HashesAreTokens(ss[i].g)
  {
    if i > 0 {
      HashesAlwaysTokens(cfg, ss, steps, i - 1);
      AlwaysTrue(cfg, ss, steps, i - 1);
      Reachable(cfg, ss, steps, i - 1);
      assert StepAt(cfg, ss, steps, i - 1);
      StepKeepsHashesTokens(cfg, ss[i - 1], steps[i - 1]);
    }
  }

  // ----- The token handed out opens the node -----

  /** The request has written this token's digest to the node, and has handed the token out or will do so. */
  predicate HasKeyed(t: Task, n: string, token: string) {
    || ((t.SetOwner? || t.SetSecret?) && t.nodeId == n && t.nodeToken == token)
    || (t.Done? && t.answer.Granted? && t.answer.nodeId == Some(n) && t.answer.accessToken == token)
    || (t.Done? && t.answer.DeviceApproved? && t.answer.keys.Some? && t.answer.keys.value.nodeId == n
        && t.answer.keys.value.nodeToken == token)
  }

  /** How a request gets there. */
  lemma KeyedBefore(cfg: Config, g: Grants, t: Task, luck: Luck, n: string, token: string)
    requires !t.Done? && HasKeyed(Statement(cfg, g, t, luck).1, n, token)
    ensures luck.up && (HasKeyed(t, n, token) || (WritesHash(t, n) && t.nodeToken == token))
  {
    if Polls(t) {
      PollsDoNotKey(cfg, g, t, luck, n, token);
    } else if !Provisions(t) {
      OthersDoNotKey(cfg, g, t, luck, n, token);
    }
  }

  lemma PollsDoNotKey(cfg: Config, g: Grants, t: Task, luck: Luck, n: string, token: string)
    requires Polls(t)
    ensures !HasKeyed(Statement(cfg, g, t, luck).1, n, token)
  {
  }

  lemma OthersDoNotKey(cfg: Config, g: Grants, t: Task, luck: Luck, n: string, token: string)
    requires !Polls(t) && !Provisions(t) && !t.Done?
    ensures !HasKeyed(Statement(cfg, g, t, luck).1, n, token)
  {
  }

  /** Among the first `m` steps only request `i` writes the token digest of the node. */
  ghost predicate OnlyKeyedBy(ss: seq<Site>, steps: seq<Step>, m: nat, i: nat, n: string) {
    forall k :: (0 <= k < m && k < |steps| && k < |ss| && steps[k].Run? && steps[k].job < |ss[k].jobs|
                 && WritesHash(ss[k].jobs[steps[k].job].at, n)) ==> steps[k].job == i
  }

  predicate KeyIs(cfg: Config, g: Grants, n: string, token: string) {
    n in g.nodes && g.nodes[n].tokenHash == Some(cfg.hash(token))
  }

  lemma OwnStepKeys(cfg: Config, s: Site, i: nat, luck: Luck, n: string, token: string)
    requires Inv(cfg, s) && Enabled(s, Run(i, luck)) && HasKeyed(Next(cfg, s, Run(i, luck)).jobs[i].at, n, token)
    requires HasKeyed(s.jobs[i].at, n, token) ==> KeyIs(cfg, s.g, n, token)
    ensures KeyIs(cfg, Next(cfg, s, Run(i, luck)).g, n, token)
  {
    var t := s.jobs[i].at;
    assert JobOk(cfg, s.g, Unix(s.clock), s.jobs[i]);
    KeyedBefore(cfg, s.g, t, luck, n, token);
    if HasKeyed(t, n, token) {
      HashesStayBut(cfg, s.g, t, luck, n);
    } else {
      assert Bound(s.g, t.h, n);
      HashIsWritten(cfg, s.g, t, luck);
    }
  }

  lemma OtherStepKeepsKey(cfg: Config, s: Site, step: Step, i: nat, n: string, token: string)
    requires Enabled(s, step) && i < |s.jobs| && KeyIs(cfg, s.g, n, token)
    requires step.Run? ==> step.job != i && !WritesHash(s.jobs[step.job].at, n)
    ensures KeyIs(cfg, Next(cfg, s, step).g, n, token)
  {
    if step.Run? {
      HashesStayBut(cfg, s.g, s.jobs[step.job].at, step.luck, n);
    }
  }

  lemma {:induction false} KeyStays(cfg: Config, ss: seq<Site>, steps: seq<Step>, m: nat, i: nat, n: string,
                                    token: string)
    requires IsTrace(cfg, ss, steps) && Initial(ss[0]) && m < |ss| && i < |ss[m].jobs|
    requires HasKeyed(ss[m].jobs[i].at, n, token) && OnlyKeyedBy(ss, steps, m, i, n)
    ensures KeyIs(cfg, ss[m].g, n, token)
  {
    if m > 0 {
      assert StepAt(cfg, ss, steps, m - 1);
      JobsStay(cfg, ss[m - 1], steps[m - 1], i);
      Reachable(cfg, ss, steps, m - 1);
      if i < |ss[m - 1].jobs| && HasKeyed(ss[m - 1].jobs[i].at, n, token) {
        KeyStays(cfg, ss, steps, m - 1, i, n, token);
      }
      if Runs(steps, m - 1, i) {
        OwnStepKeys(cfg, ss[m - 1], i, steps[m - 1].luck, n, token);
      } else {
        OtherStepKeepsKey(cfg, ss[m - 1], steps[m - 1], i, n, token);
      }
    }
  }

  /** The access token of a granted poll is that of the node: as long as no other request provisions the node, the
      node's stored digest is that of the token handed out. */
  lemma GrantedTokenIsTheNodes(cfg: Config, ss: seq<Site>, steps: seq<Step>, m: nat, i: nat)
    requires IsTrace(cfg, ss, steps) && Initial(ss[0]) && m < |ss| && i < |ss[m].jobs|
    requires ss[m].jobs[i].at.Done? && ss[m].jobs[i].at.answer.Granted? && ss[m].jobs[i].at.answer.nodeId.Some?
    requires OnlyKeyedBy(ss, steps, m, i, ss[m].jobs[i].at.answer.nodeId.value)
    ensures var n := ss[m].jobs[i].at.answer.nodeId.value;
            n in ss[m].g.nodes && ss[m].g.nodes[n].tokenHash == Some(cfg.hash(ss[m].jobs[i].at.answer.accessToken))
  {
    KeyStays(cfg, ss, steps, m, i, ss[m].jobs[i].at.answer.nodeId.value, ss[m].jobs[i].at.answer.accessToken);
  }

  // ----- A granted node has its owner -----

  /** The request has set the owner of the node, and has handed the node's token out or will do so. */
  predicate HasOwned(t: Task, n: string) {
    || (t.SetSecret? && t.nodeId == n)
    || (t.Done? && t.answer.Granted? && t.answer.nodeId == Some(n))
    || (t.Done? && t.answer.DeviceApproved? && t.answer.keys.Some? && t.answer.keys.value.nodeId == n)
  }

  predicate IsOwned(g: Grants, n: string) {
    n in g.nodes && g.nodes[n].userId.Some?
  }

  lemma OwnedBefore(cfg: Config, g: Grants, t: Task, luck: Luck, n: string)
    requires !t.Done? && HasOwned(Statement(cfg, g, t, luck).1, n)
    ensures luck.up && (HasOwned(t, n) || (t.SetOwner? && t.nodeId == n))
  {
    if Polls(t) {
      PollsDoNotOwn(cfg, g, t, luck, n);
    } else if !Provisions(t) {
      OthersDoNotOwn(cfg, g, t, luck, n);
    }
  }

  lemma PollsDoNotOwn(cfg: Config, g: Grants, t: Task, luck: Luck, n: string)
    requires Polls(t)
    ensures !HasOwned(Statement(cfg, g, t, luck).1, n)
  {
  }

  lemma OthersDoNotOwn(cfg: Config, g: Grants, t: Task, luck: Luck, n: string)
    requires !Polls(t) && !Provisions(t) && !t.Done?
    ensures !HasOwned(Statement(cfg, g, t, luck).1, n)
  {
  }

  lemma OwnerIsWritten(cfg: Config, g: Grants, t: Task, luck: Luck)
    requires t.SetOwner? && t.nodeId in g.nodes && luck.up
    ensures IsOwned(Apply(g, Statement(cfg, g, t, luck).0), t.nodeId)
  {
  }

  lemma OwnStepOwns(cfg: Config, s: Site, i: nat, luck: Luck, n: string)
    requires Inv(cfg, s) && Enabled(s, Run(i, luck)) && HasOwned(Next(cfg, s, Run(i, luck)).jobs[i].at, n)
    requires HasOwned(s.jobs[i].at, n) ==> IsOwned(s.g, n)
    ensures IsOwned(Next(cfg, s, Run(i, luck)).g, n)
  {
    var t := s.jobs[i].at;
    assert JobOk(cfg, s.g, Unix(s.clock), s.jobs[i]);
    OwnedBefore(cfg, s.g, t, luck, n);
    if HasOwned(t, n) {
      StepKeepsOwner(cfg, s, Run(i, luck), n);
    } else {
      assert Bound(s.g, t.h, n);
      OwnerIsWritten(cfg, s.g, t, luck);
    }
  }

  lemma {:induction false} OwnedNodes(cfg: Config, ss: seq<Site>, steps: seq<Step>, m: nat, i: nat, n: string)
    requires IsTrace(cfg, ss, steps) && Initial(ss[0]) && m < |ss| && i < |ss[m].jobs| && HasOwned(ss[m].jobs[i].at, n)
    ensures IsOwned(ss[m].g, n)
  {
    if m > 0 {
      assert StepAt(cfg, ss, steps, m - 1);
      JobsStay(cfg, ss[m - 1], steps[m - 1], i);
      Reachable(cfg, ss, steps, m - 1);
      if i < |ss[m - 1].jobs| && HasOwned(ss[m - 1].jobs[i].at, n) {
        OwnedNodes(cfg, ss, steps, m - 1, i, n);
        StepKeepsOwner(cfg, ss[m - 1], steps[m - 1], n);
      }
      if Runs(steps, m - 1, i) {
        OwnStepOwns(cfg, ss[m - 1], i, steps[m - 1].luck, n);
      }
    }
  }

  /** The node of a granted poll belongs to the user who approved its session. */
  lemma GrantedNodeIsOwned(cfg: Config, ss: seq<Site>, steps: seq<Step>, m: nat, i: nat)
    requires IsTrace(cfg, ss, steps) && Initial(ss[0]) && m < |ss| && i < |ss[m].jobs|
    requires ss[m].jobs[i].at.Done? && ss[m].jobs[i].at.answer.Granted? && ss[m].jobs[i].at.answer.nodeId.Some?
    ensures var g, n := ss[m].g, ss[m].jobs[i].at.answer.nodeId.value;
            && ss[m].jobs[i].start.StartPoll? && cfg.hash(ss[m].jobs[i].start.code) in g.sessions
            && n in g.nodes && g.nodes[n].userId.Some?
            && g.nodes[n].userId == g.sessions[cfg.hash(ss[m].jobs[i].start.code)].userId
  {
    var g, n := ss[m].g, ss[m].jobs[i].at.answer.nodeId.value;
    OwnedNodes(cfg, ss, steps, m, i, n);
    AnswersAreTrue(cfg, ss, steps, m, i);
    Reachable(cfg, ss, steps, m);
    var h := cfg.hash(ss[m].jobs[i].start.code);
    assert Bound(g, h, n) && Linked(g, n, g.nodes[n].userId.value);
  }

  // ----- Nothing is shared -----

  /** No two e-mails share a user and no two sessions a user code. */
  predicate NothingShared(g: Grants) {
    && (forall e, f :: e in g.users && f in g.users && g.users[e] == g.users[f] ==> e == f)
    && (forall h, k ::
          h in g.sessions && k in g.sessions && g.sessions[h].userCode == g.sessions[k].userCode ==> h == k)
  }

  /** A write that shares nothing. */
  ghost predicate Unshared(g: Grants, c: Change) {
    match c
    case PutUser(email, user) => user !in g.users.Values
    case PutSession(h, s) =>
      if h in g.sessions then s.userCode == g.sessions[h].userCode
      else forall k :: k in g.sessions ==> g.sessions[k].userCode != s.userCode
    case _ => true
  }

  lemma StatementIsUnshared(cfg: Config, g: Grants, t: Task, luck: Luck)
    ensures Unshared(g, Statement(cfg, g, t, luck).0)
  {
    if Polls(t) {
      PollsShareNothing(cfg, g, t, luck);
    } else if Provisions(t) {
      ProvisionsShareNothing(cfg, g, t, luck);
    } else if t.AddDeviceSession? {
      SessionsShareNothing(cfg, g, t, luck);
    } else {
      OthersShareNothing(cfg, g, t, luck);
    }
  }

  lemma PollsShareNothing(cfg: Config, g: Grants, t: Task, luck: Luck)
    requires Polls(t)
    ensures Unshared(g, Statement(cfg, g, t, luck).0)
  {
  }

  lemma ProvisionsShareNothing(cfg: Config, g: Grants, t: Task, luck: Luck)
    requires Provisions(t)
    ensures Unshared(g, Statement(cfg, g, t, luck).0)
  {
  }

  lemma SessionsShareNothing(cfg: Config, g: Grants, t: Task, luck: Luck)
    requires t.AddDeviceSession?
    ensures Unshared(g, Statement(cfg, g, t, luck).0)
  {
  }

  lemma OthersShareNothing(cfg: Config, g: Grants, t: Task, luck: Luck)
    requires !Polls(t) && !Provisions(t) && !t.AddDeviceSession?
    ensures Unshared(g, Statement(cfg, g, t, luck).0)
  {
  }

  lemma UnsharedKeeps(g: Grants, c: Change)
    requires NothingShared(g) && Unshared(g, c)
    ensures NothingShared(Apply(g, c))
  {
    if c.PutUser? {
      assert forall e :: e in g.users ==> g.users[e] in g.users.Values;
    }
  }

  /** In every run each user has one e-mail and each user code stands for one session. */
  lemma {:induction false} NothingIsShared(cfg: Config, ss: seq<Site>, steps: seq<Step>, i: nat)
    requires IsTrace(cfg, ss, steps) && Initial(ss[0]) && i < |ss|
    ensures NothingShared(ss[i].g)
  {
    if i > 0 {
      NothingIsShared(cfg, ss, steps, i - 1);
      var s, step := ss[i - 1], steps[i - 1];
      assert StepAt(cfg, ss, steps, i - 1);
      if step.Run? {
        StatementIsUnshared(cfg, s.g, s.jobs[step.job].at, step.luck);
      }
      UnsharedKeeps(s.g, Effect(cfg, s, step));
    }
  }
}
