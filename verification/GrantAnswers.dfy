/** What the answers of the sign-in service are worth: whatever was handed out, in any run, is what the tables hold,
    for the user and the node it was meant for. */
module GrantAnswers {
  import opened Basics
  import opened Schema
  import opened GrantMachine
  import opened GrantTheorems

  // ----- What no statement takes back -----

  /** No statement removes a user, a link or a token, or changes whom it stands for. */
  ghost predicate Keeps(g: Grants, g': Grants) {
    && (forall e :: e in g.users ==> e in g'.users && g'.users[e] == g.users[e])
    && (forall h :: h in g.magic ==>
          && h in g'.magic && g'.magic[h].userId == g.magic[h].userId
          && g'.magic[h].deviceCodeHash == g.magic[h].deviceCodeHash && g'.magic[h].expiresAt == g.magic[h].expiresAt
          && (g.magic[h].usedAt.Some? ==> g'.magic[h].usedAt == g.magic[h].usedAt))
    && (forall t :: t in g.apiTokens ==>
          && t in g'.apiTokens && g'.apiTokens[t] == g.apiTokens[t].(revokedAt := g'.apiTokens[t].revokedAt)
          && (g.apiTokens[t].revokedAt.Some? ==> g'.apiTokens[t].revokedAt.Some?))
    && (forall n :: n in g.nodes ==>
          && n in g'.nodes && g'.nodes[n].nodeType == g.nodes[n].nodeType && g'.nodes[n].endpoint == g.nodes[n].endpoint
          && g'.nodes[n].publicKey == g.nodes[n].publicKey && g'.nodes[n].createdAt == g.nodes[n].createdAt)
    && SessionsEvolve(g, g')
  }

  /** A write that takes nothing back outside the sessions. */
  ghost predicate Additive(g: Grants, c: Change) {
    match c
    case PutUser(email, _) => email !in g.users
    case PutMagic(h, link) =>
      h in g.magic ==> g.magic[h].usedAt.None? && link == g.magic[h].(usedAt := link.usedAt)
    case PutToken(t, token) =>
      t in g.apiTokens ==> token.revokedAt.Some? && token == g.apiTokens[t].(revokedAt := token.revokedAt)
    case PutNode(n, node) =>
      n in g.nodes ==>
        && node.nodeType == g.nodes[n].nodeType && node.endpoint == g.nodes[n].endpoint
        && node.publicKey == g.nodes[n].publicKey && node.createdAt == g.nodes[n].createdAt
    case _ => true
  }

  lemma LinkStatementIsAdditive(cfg: Config, g: Grants, t: Task, luck: Luck)
    ensures Additive(g, LinkStatement(cfg, g, t, luck).0)
  {
  }

  lemma ApprovalStatementIsAdditive(cfg: Config, g: Grants, t: Task, luck: Luck)
    ensures Additive(g, ApprovalStatement(cfg, g, t, luck).0)
  {
  }

  lemma PollStatementIsAdditive(cfg: Config, g: Grants, t: Task, luck: Luck)
    ensures Additive(g, PollStatement(cfg, g, t, luck).0)
  {
  }

  lemma ProvisionStatementIsAdditive(cfg: Config, g: Grants, t: Task, luck: Luck)
    ensures Additive(g, ProvisionStatement(cfg, g, t, luck).0)
  {
  }

  lemma StatementIsAdditive(cfg: Config, g: Grants, t: Task, luck: Luck)
    ensures Additive(g, Statement(cfg, g, t, luck).0)
  {
    OpenStatementIsAdditive(cfg, g, t, luck);
    KeyStatementIsAdditive(cfg, g, t, luck);
    LinkStatementIsAdditive(cfg, g, t, luck);
    ApprovalStatementIsAdditive(cfg, g, t, luck);
    PollStatementIsAdditive(cfg, g, t, luck);
    ProvisionStatementIsAdditive(cfg, g, t, luck);
  }

  lemma OpenStatementIsAdditive(cfg: Config, g: Grants, t: Task, luck: Luck)
    ensures Additive(g, OpenStatement(cfg, g, t, luck).0)
    ensures t.AddDeviceSession? ==> Additive(g, SessionStatement(cfg, g, t, luck).0)
  {
  }

  lemma KeyStatementIsAdditive(cfg: Config, g: Grants, t: Task, luck: Luck)
    ensures Additive(g, KeyStatement(cfg, g, t, luck).0)
  {
  }

  lemma StepKeeps(cfg: Config, s: Site, step: Step)
    requires Inv(cfg, s) && Enabled(s, step)
    ensures Keeps(s.g, Next(cfg, s, step).g)
  {
    StepEvolvesSessions(cfg, s, step);
    if step.Run? {
      StatementIsAdditive(cfg, s.g, s.jobs[step.job].at, step.luck);
    }
    assert Additive(s.g, Effect(cfg, s, step));
  }

  // ----- What a request has achieved -----

  /** The token's digest is stored, for this user and node and with this scope. */
  predicate HoldsToken(cfg: Config, g: Grants, token: string, user: string, node: Option<string>, tokenLabel: string,
                       scope: string)
  {
    var hash := cfg.hash(token);
    && hash in g.apiTokens && g.apiTokens[hash].userId == user && g.apiTokens[hash].nodeId == node
    && g.apiTokens[hash].tokenLabel == tokenLabel && g.apiTokens[hash].scope == scope
  }

  /** The link has been used, and stands for this user and this session. */
  predicate Followed(cfg: Config, g: Grants, token: string, user: string, device: Option<string>) {
    var hash := cfg.hash(token);
    && hash in g.magic && g.magic[hash].usedAt.Some?
    && g.magic[hash].userId == Some(user) && g.magic[hash].deviceCodeHash == device
  }

  predicate DeviceFor(g: Grants, userCode: string, device: Option<string>) {
    device.Some? ==> userCode != "" && device.value in g.sessions && g.sessions[device.value].userCode == userCode
  }

  /** A link for the user with this e-mail has been written. */
  ghost predicate LinkWritten(g: Grants, email: string, userCode: string) {
    && email in g.users
    && exists h :: IsLinkFor(g, h, email, userCode)
  }

  predicate IsLinkFor(g: Grants, h: string, email: string, userCode: string)
    requires email in g.users
  {
    h in g.magic && g.magic[h].userId == Some(g.users[email]) && DeviceFor(g, userCode, g.magic[h].deviceCodeHash)
  }

  /** The node that was added for the request, if it named a type and an endpoint. */
  predicate NodeFor(g: Grants, start: Task, node: Option<string>)
    requires start.OpenDevice?
  {
    if start.nodeType == "" || start.endpoint == "" then node.None?
    else
      && node.Some? && node.value in g.nodes
      && g.nodes[node.value].nodeType == start.nodeType && g.nodes[node.value].endpoint == start.endpoint
      && g.nodes[node.value].publicKey == start.key
  }

  /** Some session with the user code was approved by the user. */
  ghost predicate CodeApproved(g: Grants, userCode: string, user: string) {
    exists h :: ApprovedBy(g, h, user) && g.sessions[h].userCode == userCode
  }

  predicate StartedTrue(cfg: Config, g: Grants, start: Task, a: Answer)
    requires a.Started?
  {
    && start.OpenDevice? && cfg.hash(a.deviceCode) in g.sessions
    && var s := g.sessions[cfg.hash(a.deviceCode)];
       && s.userCode == a.userCode && s.pollInterval == a.interval
       && s.expiresAt - s.createdAt == a.expiresIn == WholeSeconds(cfg.magicTtl)
       && NodeFor(g, start, s.nodeId)
  }

  predicate LoggedInTrue(cfg: Config, g: Grants, start: Task, a: Answer)
    requires a.LoggedIn?
  {
    start.FollowLink? && Followed(cfg, g, start.token, a.userId, None)
    && HoldsToken(cfg, g, a.accessToken, a.userId, None, "magic-link", "all")
  }

  predicate DeviceApprovedTrue(cfg: Config, g: Grants, start: Task, a: Answer)
    requires a.DeviceApproved?
  {
    && start.FollowLink? && cfg.hash(start.token) in g.magic
    && var device := g.magic[cfg.hash(start.token)].deviceCodeHash;
       && device.Some? && Followed(cfg, g, start.token, a.userId, device) && ApprovedBy(g, device.value, a.userId)
       && HoldsToken(cfg, g, a.accessToken, a.userId, None, "magic-link", "all")
       && (a.keys.Some? ==> KeysTrue(cfg, g, device.value, a.userId, a.keys.value))
  }

  predicate KeysTrue(cfg: Config, g: Grants, h: string, user: string, keys: NodeKeys) {
    Bound(g, h, keys.nodeId) && HoldsToken(cfg, g, keys.nodeToken, user, Some(keys.nodeId), "device-node", "node:push")
  }

  /** The session polled for, if there is one. */
  function Polled(cfg: Config, g: Grants, start: Task): Option<Session> {
    if start.StartPoll? && cfg.hash(start.code) in g.sessions then Some(g.sessions[cfg.hash(start.code)]) else None
  }

  predicate GrantedTrue(cfg: Config, g: Grants, start: Task, a: Answer)
    requires a.Granted?
  {
    && Polled(cfg, g, start).Some?
    && var s := Polled(cfg, g, start).value;
       && s.status == Consumed && s.userId.Some? && s.nodeId == a.nodeId
       && (a.introSecret.Some? <==> a.nodeId.Some?) && a.scope == (if a.nodeId.Some? then "node:push" else "all")
       && HoldsToken(cfg, g, a.accessToken, s.userId.value, a.nodeId,
                     if a.nodeId.Some? then "device-node" else "device-flow", a.scope)
  }

  /** The answer is true: what was handed out is stored, for the one who asked. */
  ghost predicate AnswerTrue(cfg: Config, g: Grants, start: Task, a: Answer) {
    match a
    case Broken => true
    case Started(_, _, _, _) => StartedTrue(cfg, g, start, a)
    case LinkSent => start.StartLink? && LinkWritten(g, start.email, start.userCode)
    case NotConsumed => start.FollowLink?
    case PendingDevice => false
    case LoggedIn(_, _) => LoggedInTrue(cfg, g, start, a)
    case DeviceApproved(_, _, _) => DeviceApprovedTrue(cfg, g, start, a)
    case WebApproved => start.StartWebApproval? && CodeApproved(g, start.userCode, start.user)
    case AccessDenied => false
    case ExpiredToken => start.StartPoll?
    case SlowDown(interval) =>
      Polled(cfg, g, start).Some? && interval == Polled(cfg, g, start).value.pollInterval + 5
    case AuthorizationPending(interval) =>
      Polled(cfg, g, start).Some? && interval == Polled(cfg, g, start).value.pollInterval
    case Granted(_, _, _, _) => GrantedTrue(cfg, g, start, a)
    case KeyIssued(token) =>
      start.IssueKey? && HoldsToken(cfg, g, token, start.user, None, "mcp-api", "talent:search")
    case LoggedOut => start.Logout?
  }

  /** What is true of a request that is about to open a session. */
  predicate OpeningTrue(g: Grants, start: Task, t: Task) {
    && (t.AddDeviceNode? ==>
          start == OpenDevice(t.nodeType, t.endpoint, t.key) && t.nodeType != "" && t.endpoint != "")
    && (t.AddDeviceSession? ==> start.OpenDevice? && NodeFor(g, start, t.node))
  }

  /** What is true of a request that is about to write or to send a link. */
  ghost predicate LinkingTrue(g: Grants, start: Task, t: Task) {
    && start.StartLink?
    && (t.AddLinkUser? ==> start.email == t.email && DeviceFor(g, start.userCode, t.device))
    && (t.AddLink? ==>
          start.email in g.users && g.users[start.email] == t.user && DeviceFor(g, start.userCode, t.device))
    && (t.MailLink? ==> LinkWritten(g, start.email, start.userCode))
  }

  /** What is true of a request that has followed a link. */
  predicate FollowingTrue(cfg: Config, g: Grants, start: Task, t: Task)
    requires t.AddLoginToken? || Approves(t)
  {
    && start.FollowLink?
    && Followed(cfg, g, start.token, t.user, if t.AddLoginToken? then None else Some(t.h))
    && (t.ReadApproval? ==> HoldsToken(cfg, g, t.userToken, t.user, None, "magic-link", "all"))
  }

  predicate Linking(t: Task) {
    t.AddLinkUser? || t.AddLink? || t.MailLink?
  }

  /** What is true of a request that is about to run its task. */
  ghost predicate TaskTrue(cfg: Config, g: Grants, start: Task, t: Task) {
    && (t.AddDeviceNode? || t.AddDeviceSession? ==> OpeningTrue(g, start, t))
    && (Linking(t) ==> LinkingTrue(g, start, t))
    && (t.AddLoginToken? || Approves(t) ==> FollowingTrue(cfg, g, start, t))
    && (t.ApproveOnWeb? ==>
          && start.StartWebApproval? && start.user == t.user
          && t.h in g.sessions && g.sessions[t.h].userCode == start.userCode)
    && (Provisions(t) ==> ProvisionTrue(cfg, g, start, t))
    && (t.Done? ==> AnswerTrue(cfg, g, start, t.answer))
  }

  /** A request that provisions a node has issued its user's token and, past the first write, the node's. */
  predicate ProvisionTrue(cfg: Config, g: Grants, start: Task, t: Task)
    requires Provisions(t)
  {
    && (t.end.ByLink? ==>
          start.FollowLink? && Followed(cfg, g, start.token, t.user, Some(t.h))
          && HoldsToken(cfg, g, t.end.userToken, t.user, None, "magic-link", "all"))
    && (!t.AddNodeToken? ==> HoldsToken(cfg, g, t.nodeToken, t.user, Some(t.nodeId), "device-node", "node:push"))
  }

  // ----- It stays true -----

  lemma DeviceStays(g: Grants, g': Grants, userCode: string, device: Option<string>)
    requires Keeps(g, g') && DeviceFor(g, userCode, device)
    ensures DeviceFor(g', userCode, device)
  {
  }

  lemma LinkStays(g: Grants, g': Grants, email: string, userCode: string)
    requires Keeps(g, g') && LinkWritten(g, email, userCode)
    ensures LinkWritten(g', email, userCode)
  {
    var h :| IsLinkFor(g, h, email, userCode);
    DeviceStays(g, g', userCode, g.magic[h].deviceCodeHash);
    assert IsLinkFor(g', h, email, userCode);
  }

  lemma CodeStaysApproved(g: Grants, g': Grants, userCode: string, user: string)
    requires Keeps(g, g') && CodeApproved(g, userCode, user)
    ensures CodeApproved(g', userCode, user)
  {
    var h :| ApprovedBy(g, h, user) && g.sessions[h].userCode == userCode;
    assert ApprovedBy(g', h, user) && g'.sessions[h].userCode == userCode;
  }

  lemma ApprovalStays(g: Grants, g': Grants, h: string, user: string)
    requires Keeps(g, g') && ApprovedBy(g, h, user)
    ensures ApprovedBy(g', h, user) && g'.sessions[h].nodeId == g.sessions[h].nodeId
  {
  }

  lemma FollowedStays(cfg: Config, g: Grants, g': Grants, token: string, user: string, device: Option<string>)
    requires Keeps(g, g') && Followed(cfg, g, token, user, device)
    ensures Followed(cfg, g', token, user, device)
  {
  }

  lemma TokenStays(cfg: Config, g: Grants, g': Grants, token: string, user: string, node: Option<string>,
                   tokenLabel: string, scope: string)
    requires Keeps(g, g') && HoldsToken(cfg, g, token, user, node, tokenLabel, scope)
    ensures HoldsToken(cfg, g', token, user, node, tokenLabel, scope)
  {
  }

  lemma StartedStaysTrue(cfg: Config, g: Grants, g': Grants, start: Task, a: Answer)
    requires Keeps(g, g') && a.Started? && StartedTrue(cfg, g, start, a)
    ensures StartedTrue(cfg, g', start, a)
  {
    assert Evolves(g.sessions[cfg.hash(a.deviceCode)], g'.sessions[cfg.hash(a.deviceCode)]);
  }

  lemma DeviceApprovedStaysTrue(cfg: Config, g: Grants, g': Grants, start: Task, a: Answer)
    requires Keeps(g, g') && a.DeviceApproved? && DeviceApprovedTrue(cfg, g, start, a)
    ensures DeviceApprovedTrue(cfg, g', start, a)
  {
    var device := g.magic[cfg.hash(start.token)].deviceCodeHash;
    ApprovalStays(g, g', device.value, a.userId);
    FollowedStays(cfg, g, g', start.token, a.userId, device);
    TokenStays(cfg, g, g', a.accessToken, a.userId, None, "magic-link", "all");
    if a.keys.Some? {
      TokenStays(cfg, g, g', a.keys.value.nodeToken, a.userId, Some(a.keys.value.nodeId), "device-node", "node:push");
    }
  }

  lemma GrantedStaysTrue(cfg: Config, g: Grants, g': Grants, start: Task, a: Answer)
    requires Keeps(g, g') && a.Granted? && GrantedTrue(cfg, g, start, a)
    ensures GrantedTrue(cfg, g', start, a)
  {
    var s := Polled(cfg, g, start).value;
    assert Evolves(s, g'.sessions[cfg.hash(start.code)]);
    TokenStays(cfg, g, g', a.accessToken, s.userId.value, a.nodeId,
               if a.nodeId.Some? then "device-node" else "device-flow", a.scope);
  }

  lemma AnswerStaysTrue(cfg: Config, g: Grants, g': Grants, start: Task, a: Answer)
    requires Keeps(g, g') && AnswerTrue(cfg, g, start, a)
    ensures AnswerTrue(cfg, g', start, a)
  {
    match a {
      case Started(_, _, _, _) => StartedStaysTrue(cfg, g, g', start, a);
      case LinkSent => LinkStays(g, g', start.email, start.userCode);
      case LoggedIn(token, user) =>
        FollowedStays(cfg, g, g', start.token, user, None);
        TokenStays(cfg, g, g', token, user, None, "magic-link", "all");
      case DeviceApproved(_, _, _) => DeviceApprovedStaysTrue(cfg, g, g', start, a);
      case WebApproved => CodeStaysApproved(g, g', start.userCode, start.user);
      case SlowDown(_) => assert Evolves(Polled(cfg, g, start).value, g'.sessions[cfg.hash(start.code)]);
      case AuthorizationPending(_) => assert Evolves(Polled(cfg, g, start).value, g'.sessions[cfg.hash(start.code)]);
      case Granted(_, _, _, _) => GrantedStaysTrue(cfg, g, g', start, a);
      case KeyIssued(token) => TokenStays(cfg, g, g', token, start.user, None, "mcp-api", "talent:search");
      case _ =>
    }
  }

  lemma LinkingStaysTrue(g: Grants, g': Grants, start: Task, t: Task)
    requires Keeps(g, g') && LinkingTrue(g, start, t)
    ensures LinkingTrue(g', start, t)
  {
    if t.MailLink? {
      LinkStays(g, g', start.email, start.userCode);
    }
  }

  lemma OpeningStaysTrue(g: Grants, g': Grants, start: Task, t: Task)
    requires Keeps(g, g') && OpeningTrue(g, start, t)
    ensures OpeningTrue(g', start, t)
  {
  }

  lemma FollowingStaysTrue(cfg: Config, g: Grants, g': Grants, start: Task, t: Task)
    requires Keeps(g, g') && (t.AddLoginToken? || Approves(t)) && FollowingTrue(cfg, g, start, t)
    ensures FollowingTrue(cfg, g', start, t)
  {
    FollowedStays(cfg, g, g', start.token, t.user, if t.AddLoginToken? then None else Some(t.h));
  }

  lemma ProvisionStaysTrue(cfg: Config, g: Grants, g': Grants, start: Task, t: Task)
    requires Keeps(g, g') && Provisions(t) && ProvisionTrue(cfg, g, start, t)
    ensures ProvisionTrue(cfg, g', start, t)
  {
    if t.end.ByLink? {
      FollowedStays(cfg, g, g', start.token, t.user, Some(t.h));
    }
  }

  lemma TaskStaysTrue(cfg: Config, g: Grants, g': Grants, start: Task, t: Task)
    requires Keeps(g, g') && TaskTrue(cfg, g, start, t)
    ensures TaskTrue(cfg, g', start, t)
  {
    if t.Done? {
      AnswerStaysTrue(cfg, g, g', start, t.answer);
    } else if t.AddDeviceNode? || t.AddDeviceSession? {
      OpeningStaysTrue(g, g', start, t);
    } else if Linking(t) {
      LinkingStaysTrue(g, g', start, t);
    } else if t.AddLoginToken? || Approves(t) {
      FollowingStaysTrue(cfg, g, g', start, t);
    } else if t.ApproveOnWeb? {
      assert Evolves(g.sessions[t.h], g'.sessions[t.h]);
    } else if Provisions(t) {
      ProvisionStaysTrue(cfg, g, g', start, t);
    }
  }

  // ----- It becomes true -----

  /** What a statement makes true of the request that ran it. */
  ghost predicate TrueAfter(cfg: Config, g: Grants, start: Task, r: (Change, Task)) {
    TaskTrue(cfg, Apply(g, r.0), start, r.1)
  }

  lemma OpenBecomesTrue(cfg: Config, g: Grants, start: Task, t: Task, luck: Luck)
    requires TaskTrue(cfg, g, start, t) && (Starts(t) ==> start == t) && (t.OpenDevice? || t.AddDeviceNode?)
    ensures TrueAfter(cfg, g, start, OpenStatement(cfg, g, t, luck))
  {
  }

  lemma SessionBecomesTrue(cfg: Config, g: Grants, start: Task, t: Task, luck: Luck)
    requires TaskTrue(cfg, g, start, t) && t.AddDeviceSession?
    ensures TrueAfter(cfg, g, start, SessionStatement(cfg, g, t, luck))
  {
  }

  lemma LinkUserBecomesTrue(cfg: Config, g: Grants, start: Task, t: Task, luck: Luck)
    requires TaskTrue(cfg, g, start, t) && (Starts(t) ==> start == t) && FoundIs(g, t, luck.found)
    requires t.StartLink? || t.AddLinkUser?
    ensures TrueAfter(cfg, g, start, LinkStatement(cfg, g, t, luck))
  {
  }

  lemma LinkBecomesTrue(cfg: Config, g: Grants, start: Task, t: Task, luck: Luck)
    requires TaskTrue(cfg, g, start, t) && (t.AddLink? || t.MailLink?)
    ensures TrueAfter(cfg, g, start, LinkStatement(cfg, g, t, luck))
  {
    if t.AddLink? && luck.up && cfg.hash(luck.drawn) !in g.magic {
      assert IsLinkFor(Apply(g, LinkStatement(cfg, g, t, luck).0), cfg.hash(luck.drawn), start.email, start.userCode);
    }
  }

  /** Every link names a user. */
  predicate LinksNameUsers(g: Grants) {
    forall h :: h in g.magic ==> g.magic[h].userId.Some?
  }

  lemma FollowBecomesTrue(cfg: Config, g: Grants, start: Task, luck: Luck)
    requires LinksNameUsers(g) && start.FollowLink?
    ensures TrueAfter(cfg, g, start, ApprovalStatement(cfg, g, start, luck))
  {
  }

  lemma LoginBecomesTrue(cfg: Config, g: Grants, start: Task, t: Task, luck: Luck)
    requires TaskTrue(cfg, g, start, t) && t.AddLoginToken?
    ensures TrueAfter(cfg, g, start, ApprovalStatement(cfg, g, t, luck))
  {
  }

  lemma ApprovalBecomesTrue(cfg: Config, g: Grants, start: Task, t: Task, luck: Luck)
    requires TaskTrue(cfg, g, start, t) && t.ApproveByLink?
    ensures TrueAfter(cfg, g, start, ApprovalStatement(cfg, g, t, luck))
  {
  }

  lemma ApprovalTokenBecomesTrue(cfg: Config, g: Grants, start: Task, t: Task, luck: Luck)
    requires TaskTrue(cfg, g, start, t) && t.AddApprovalToken?
    ensures TrueAfter(cfg, g, start, ApprovalStatement(cfg, g, t, luck))
  {
  }

  lemma ReadingBecomesTrue(cfg: Config, g: Grants, now: int, start: Task, t: Task, luck: Luck)
    requires TaskTrue(cfg, g, start, t) && TaskOk(g, now, t) && t.ReadApproval?
    ensures TrueAfter(cfg, g, start, ApprovalStatement(cfg, g, t, luck))
  {
  }

  lemma WebApprovalBecomesTrue(cfg: Config, g: Grants, start: Task, t: Task, luck: Luck)
    requires TaskTrue(cfg, g, start, t) && (Starts(t) ==> start == t) && FoundIs(g, t, luck.found)
    requires t.StartWebApproval? || t.ApproveOnWeb?
    ensures TrueAfter(cfg, g, start, ApprovalStatement(cfg, g, t, luck))
  {
    if t.ApproveOnWeb? && ApprovalStatement(cfg, g, t, luck).1 == Done(WebApproved) {
      var g' := Apply(g, ApprovalStatement(cfg, g, t, luck).0);
      assert ApprovedBy(g', t.h, start.user) && g'.sessions[t.h].userCode == start.userCode;
    }
  }

  lemma LookupBecomesTrue(cfg: Config, g: Grants, now: int, start: Task, luck: Luck)
    requires SessionsOk(g, now) && start.StartPoll?
    ensures TrueAfter(cfg, g, start, PollStatement(cfg, g, start, luck))
  {
    if cfg.hash(start.code) in g.sessions {
      assert SessionOk(g.sessions[cfg.hash(start.code)], now);
    }
  }

  lemma JudgingBecomesTrue(cfg: Config, g: Grants, now: int, job: Job, luck: Luck)
    requires SessionsOk(g, now) && JobOk(cfg, g, now, job) && (job.at.JudgePoll? || job.at.StampPoll?)
    ensures TrueAfter(cfg, g, job.start, PollStatement(cfg, g, job.at, luck))
  {
    assert SessionOk(g.sessions[job.at.h], now);
  }

  lemma ConsumingBecomesTrue(cfg: Config, g: Grants, now: int, job: Job, luck: Luck)
    requires JobOk(cfg, g, now, job) && job.at.ConsumePoll?
    ensures TrueAfter(cfg, g, job.start, PollStatement(cfg, g, job.at, luck))
  {
  }

  lemma GrantBecomesTrue(cfg: Config, g: Grants, now: int, job: Job, luck: Luck)
    requires JobOk(cfg, g, now, job) && job.at.AddPollToken?
    ensures TrueAfter(cfg, g, job.start, PollStatement(cfg, g, job.at, luck))
  {
  }

  lemma NodeTokenIsHeld(cfg: Config, g: Grants, start: Task, t: Task, luck: Luck)
    requires t.AddNodeToken? && ProvisionTrue(cfg, g, start, t)
    ensures var (c, t') := ProvisionStatement(cfg, g, t, luck);
            t' == Done(Broken) || (Provisions(t') && ProvisionTrue(cfg, Apply(g, c), start, t'))
  {
  }

  lemma NodeTokenStaysHeld(cfg: Config, g: Grants, start: Task, t: Task, luck: Luck)
    requires (t.SetTokenHash? || t.SetOwner?) && ProvisionTrue(cfg, g, start, t)
    ensures var (c, t') := ProvisionStatement(cfg, g, t, luck);
            t' == Done(Broken) || (Provisions(t') && ProvisionTrue(cfg, Apply(g, c), start, t'))
  {
  }

  lemma ProvisionBecomesTrue(cfg: Config, g: Grants, start: Task, t: Task, luck: Luck)
    requires Provisions(t) && !t.SetSecret? && ProvisionTrue(cfg, g, start, t)
    ensures TrueAfter(cfg, g, start, ProvisionStatement(cfg, g, t, luck))
  {
    var (c, t') := ProvisionStatement(cfg, g, t, luck);
    if t.AddNodeToken? {
      NodeTokenIsHeld(cfg, g, start, t, luck);
    } else {
      NodeTokenStaysHeld(cfg, g, start, t, luck);
    }
    ProvisionOrBroken(cfg, Apply(g, c), start, t');
  }

  lemma ProvisionOrBroken(cfg: Config, g: Grants, start: Task, t: Task)
    requires t == Done(Broken) || (Provisions(t) && ProvisionTrue(cfg, g, start, t))
    ensures TaskTrue(cfg, g, start, t)
  {
  }

  lemma PollEndsTrue(cfg: Config, g: Grants, now: int, job: Job, luck: Luck)
    requires JobOk(cfg, g, now, job) && job.at.SetSecret? && ProvisionTrue(cfg, g, job.start, job.at)
    requires job.at.end.ByPoll?
    ensures TrueAfter(cfg, g, job.start, ProvisionStatement(cfg, g, job.at, luck))
  {
  }

  lemma LinkEndsTrue(cfg: Config, g: Grants, now: int, job: Job, luck: Luck)
    requires JobOk(cfg, g, now, job) && job.at.SetSecret? && ProvisionTrue(cfg, g, job.start, job.at)
    requires job.at.end.ByLink?
    ensures TrueAfter(cfg, g, job.start, ProvisionStatement(cfg, g, job.at, luck))
  {
  }

  lemma KeyBecomesTrue(cfg: Config, g: Grants, start: Task, luck: Luck)
    requires start.IssueKey?
    ensures TrueAfter(cfg, g, start, KeyStatement(cfg, g, start, luck))
  {
  }

  lemma LogoutBecomesTrue(cfg: Config, g: Grants, start: Task, luck: Luck)
    requires start.Logout?
    ensures TrueAfter(cfg, g, start, KeyStatement(cfg, g, start, luck))
  {
  }

  lemma OpeningBecomesTrue(cfg: Config, g: Grants, start: Task, t: Task, luck: Luck)
    requires TaskTrue(cfg, g, start, t) && (Starts(t) ==> start == t) && FoundIs(g, t, luck.found)
    requires t.OpenDevice? || t.AddDeviceNode? || t.AddDeviceSession?
             || t.StartLink? || t.AddLinkUser? || t.AddLink? || t.MailLink?
    ensures TrueAfter(cfg, g, start, Statement(cfg, g, t, luck))
  {
    if t.AddDeviceSession? {
      SessionBecomesTrue(cfg, g, start, t, luck);
    } else if t.OpenDevice? || t.AddDeviceNode? {
      OpenBecomesTrue(cfg, g, start, t, luck);
    } else if t.StartLink? || t.AddLinkUser? {
      LinkUserBecomesTrue(cfg, g, start, t, luck);
    } else {
      LinkBecomesTrue(cfg, g, start, t, luck);
    }
  }

  lemma FollowingBecomesTrue(cfg: Config, g: Grants, now: int, start: Task, t: Task, luck: Luck)
    requires TaskTrue(cfg, g, start, t) && TaskOk(g, now, t) && (Starts(t) ==> start == t) && FoundIs(g, t, luck.found)
    requires LinksNameUsers(g)
    requires t.FollowLink? || t.AddLoginToken? || Approves(t) || t.StartWebApproval? || t.ApproveOnWeb?
    ensures TrueAfter(cfg, g, start, Statement(cfg, g, t, luck))
  {
    if t.FollowLink? {
      FollowBecomesTrue(cfg, g, start, luck);
    } else if t.AddLoginToken? {
      LoginBecomesTrue(cfg, g, start, t, luck);
    } else if t.ReadApproval? {
      ReadingBecomesTrue(cfg, g, now, start, t, luck);
    } else if t.ApproveByLink? {
      ApprovalBecomesTrue(cfg, g, start, t, luck);
    } else if t.AddApprovalToken? {
      ApprovalTokenBecomesTrue(cfg, g, start, t, luck);
    } else {
      WebApprovalBecomesTrue(cfg, g, start, t, luck);
    }
  }

  lemma PollingBecomesTrue(cfg: Config, g: Grants, now: int, job: Job, luck: Luck)
    requires SessionsOk(g, now) && JobOk(cfg, g, now, job) && Polls(job.at)
    ensures TrueAfter(cfg, g, job.start, Statement(cfg, g, job.at, luck))
  {
    if job.at.StartPoll? {
      LookupBecomesTrue(cfg, g, now, job.start, luck);
    } else if job.at.ConsumePoll? {
      ConsumingBecomesTrue(cfg, g, now, job, luck);
    } else if job.at.AddPollToken? {
      GrantBecomesTrue(cfg, g, now, job, luck);
    } else {
      JudgingBecomesTrue(cfg, g, now, job, luck);
    }
  }

  lemma ProvisioningBecomesTrue(cfg: Config, g: Grants, now: int, job: Job, luck: Luck)
    requires JobOk(cfg, g, now, job) && Provisions(job.at) && ProvisionTrue(cfg, g, job.start, job.at)
    ensures TrueAfter(cfg, g, job.start, Statement(cfg, g, job.at, luck))
  {
    if job.at.SetSecret? && job.at.end.ByPoll? {
      PollEndsTrue(cfg, g, now, job, luck);
    } else if job.at.SetSecret? {
      LinkEndsTrue(cfg, g, now, job, luck);
    } else {
      ProvisionBecomesTrue(cfg, g, job.start, job.at, luck);
    }
  }

  lemma BecomesTrue(cfg: Config, g: Grants, now: int, job: Job, luck: Luck)
    requires SessionsOk(g, now) && JobOk(cfg, g, now, job) && LinksNameUsers(g)
    requires TaskTrue(cfg, g, job.start, job.at) && !job.at.Done? && FoundIs(g, job.at, luck.found)
    ensures TrueAfter(cfg, g, job.start, Statement(cfg, g, job.at, luck))
  {
    if Polls(job.at) {
      PollingBecomesTrue(cfg, g, now, job, luck);
    } else if Provisions(job.at) {
      ProvisioningBecomesTrue(cfg, g, now, job, luck);
    } else if job.at.IssueKey? {
      KeyBecomesTrue(cfg, g, job.start, luck);
    } else if job.at.Logout? {
      LogoutBecomesTrue(cfg, g, job.start, luck);
    } else if job.at.FollowLink? || job.at.AddLoginToken? || Approves(job.at) || job.at.StartWebApproval?
              || job.at.ApproveOnWeb? {
      FollowingBecomesTrue(cfg, g, now, job.start, job.at, luck);
    } else {
      OpeningBecomesTrue(cfg, g, job.start, job.at, luck);
    }
  }

  // ----- Over every run -----

  ghost predicate AllTrue(cfg: Config, s: Site) {
    LinksNameUsers(s.g) && forall i :: 0 <= i < |s.jobs| ==> TaskTrue(cfg, s.g, s.jobs[i].start, s.jobs[i].at)
  }

  /** Links are written by two statements only. */
  lemma OthersWriteNoLink(cfg: Config, g: Grants, t: Task, luck: Luck)
    requires !t.AddLink? && !t.FollowLink?
    ensures !Statement(cfg, g, t, luck).0.PutMagic?
  {
    if Polls(t) {
      PollsWriteNoLink(cfg, g, t, luck);
    } else if Provisions(t) {
      ProvisionsWriteNoLink(cfg, g, t, luck);
    }
  }

  lemma PollsWriteNoLink(cfg: Config, g: Grants, t: Task, luck: Luck)
    requires Polls(t)
    ensures !Statement(cfg, g, t, luck).0.PutMagic?
  {
  }

  lemma ProvisionsWriteNoLink(cfg: Config, g: Grants, t: Task, luck: Luck)
    requires Provisions(t)
    ensures !Statement(cfg, g, t, luck).0.PutMagic?
  {
  }

  lemma StepKeepsLinkUsers(cfg: Config, s: Site, step: Step)
    requires Enabled(s, step) && LinksNameUsers(s.g)
    ensures LinksNameUsers(Next(cfg, s, step).g)
  {
    if step.Run? && !s.jobs[step.job].at.AddLink? && !s.jobs[step.job].at.FollowLink? {
      OthersWriteNoLink(cfg, s.g, s.jobs[step.job].at, step.luck);
    }
  }

  lemma StepKeepsTrue(cfg: Config, s: Site, step: Step)
    requires Inv(cfg, s) && Enabled(s, step) && AllTrue(cfg, s)
    ensures AllTrue(cfg, Next(cfg, s, step))
  {
    var s' := Next(cfg, s, step);
    StepKeeps(cfg, s, step);
    StepKeepsLinkUsers(cfg, s, step);
    forall i | 0 <= i < |s'.jobs|
      ensures TaskTrue(cfg, s'.g, s'.jobs[i].start, s'.jobs[i].at)
    {
      if step.Run? && step.job == i {
        assert JobOk(cfg, s.g, Unix(s.clock), s.jobs[i]);
        BecomesTrue(cfg, s.g, Unix(s.clock), s.jobs[i], step.luck);
      } else if i < |s.jobs| {
        TaskStaysTrue(cfg, s.g, s'.g, s.jobs[i].start, s.jobs[i].at);
      }
    }
  }

  lemma {:induction false} AlwaysTrue(cfg: Config, ss: seq<Site>, steps: seq<Step>, n: nat)
    requires IsTrace(cfg, ss, steps) && Initial(ss[0]) && n < |ss|
    ensures AllTrue(cfg, ss[n])
  {
    if n > 0 {
      AlwaysTrue(cfg, ss, steps, n - 1);
      Reachable(cfg, ss, steps, n - 1);
      assert StepAt(cfg, ss, steps, n - 1);
      StepKeepsTrue(cfg, ss[n - 1], steps[n - 1]);
    }
  }

  /** Every answer of every run is true, when it is given and ever after. */
  lemma AnswersAreTrue(cfg: Config, ss: seq<Site>, steps: seq<Step>, n: nat, i: nat)
    requires IsTrace(cfg, ss, steps) && Initial(ss[0]) && n < |ss| && i < |ss[n].jobs| && ss[n].jobs[i].at.Done?
    ensures AnswerTrue(cfg, ss[n].g, ss[n].jobs[i].start, ss[n].jobs[i].at.answer)
  {
    AlwaysTrue(cfg, ss, steps, n);
  }

  lemma KeepsIsTransitive(g: Grants, m: Grants, g': Grants)
    requires Keeps(g, m) && Keeps(m, g')
    ensures Keeps(g, g')
  {
    forall h | h in g.sessions
      ensures h in g'.sessions && Evolves(g.sessions[h], g'.sessions[h])
    {
      EvolvesIsTransitive(g.sessions[h], m.sessions[h], g'.sessions[h]);
    }
  }

  lemma KeepsItself(g: Grants)
    ensures Keeps(g, g)
  {
  }

  /** Users, links and tokens, once written, stand for the same in every later state. */
  lemma {:induction false} NothingIsTakenBack(cfg: Config, ss: seq<Site>, steps: seq<Step>, k: nat, n: nat)
    requires IsTrace(cfg, ss, steps) && Inv(cfg, ss[0]) && k <= n < |ss|
    ensures Keeps(ss[k].g, ss[n].g)
  {
    if k == n {
      KeepsItself(ss[k].g);
    } else {
      NothingIsTakenBack(cfg, ss, steps, k, n - 1);
      Reachable(cfg, ss, steps, n - 1);
      assert StepAt(cfg, ss, steps, n - 1);
      StepKeeps(cfg, ss[n - 1], steps[n - 1]);
      KeepsIsTransitive(ss[k].g, ss[n - 1].g, ss[n].g);
    }
  }

  // ----- Whom a link signs in -----

  /** Step `k` writes the link with this digest for the e-mail. */
  predicate WritesLink(cfg: Config, ss: seq<Site>, steps: seq<Step>, k: nat, email: string, hash: string) {
    && k < |steps| && k < |ss| && steps[k].Run? && steps[k].job < |ss[k].jobs| && steps[k].luck.up
    && ss[k].jobs[steps[k].job].at.AddLink? && ss[k].jobs[steps[k].job].start.StartLink?
    && ss[k].jobs[steps[k].job].start.email == email
    && cfg.hash(steps[k].luck.drawn) == hash && hash !in ss[k].g.magic
  }

  /** A link stands for the one user with the e-mail it was asked for, whoever asked and how often; it is good until
      the lifetime has passed. */
  lemma LinkStandsForAddressee(cfg: Config, ss: seq<Site>, steps: seq<Step>, k: nat, n: nat, email: string,
                               hash: string)
    requires IsTrace(cfg, ss, steps) && Initial(ss[0]) && k < n < |ss| && WritesLink(cfg, ss, steps, k, email, hash)
    ensures email in ss[n].g.users && hash in ss[n].g.magic
    ensures ss[n].g.magic[hash].userId == Some(ss[n].g.users[email])
    ensures email in ss[k].g.users && ss[n].g.users[email] == ss[k].g.users[email]
    ensures ss[n].g.magic[hash].expiresAt == Unix(steps[k].luck.now + cfg.magicTtl)
  {
    AlwaysTrue(cfg, ss, steps, k);
    Reachable(cfg, ss, steps, 0);
    assert StepAt(cfg, ss, steps, k);
    assert TaskTrue(cfg, ss[k].g, ss[k].jobs[steps[k].job].start, ss[k].jobs[steps[k].job].at);
    NothingIsTakenBack(cfg, ss, steps, k + 1, n);
    NothingIsTakenBack(cfg, ss, steps, k, n);
  }

  /** Following a link signs in the user with the e-mail it was sent to, and nobody else; the token handed out is
      that user's. All links for one e-mail sign in one user. */
  lemma LinksSignInTheAddressee(cfg: Config, ss: seq<Site>, steps: seq<Step>, k: nat, n: nat, j: nat, email: string,
                                hash: string)
    requires IsTrace(cfg, ss, steps) && Initial(ss[0]) && k < n < |ss| && WritesLink(cfg, ss, steps, k, email, hash)
    requires j < |ss[n].jobs| && ss[n].jobs[j].start.FollowLink? && cfg.hash(ss[n].jobs[j].start.token) == hash
    ensures email in ss[n].g.users && ss[n].g.users.Keys >= ss[k].g.users.Keys
    ensures var g, t := ss[n].g, ss[n].jobs[j].at;
            && (t.Done? && t.answer.LoggedIn? ==>
                  && t.answer.userId == g.users[email]
                  && HoldsToken(cfg, g, t.answer.accessToken, g.users[email], None, "magic-link", "all"))
            && (t.Done? && t.answer.DeviceApproved? ==>
                  && t.answer.userId == g.users[email]
                  && HoldsToken(cfg, g, t.answer.accessToken, g.users[email], None, "magic-link", "all"))
  {
    LinkStandsForAddressee(cfg, ss, steps, k, n, email, hash);
    Reachable(cfg, ss, steps, 0);
    NothingIsTakenBack(cfg, ss, steps, k, n);
    if ss[n].jobs[j].at.Done? {
      AnswersAreTrue(cfg, ss, steps, n, j);
    }
  }
}
