/** Sign-in, the device grant (RFC 8628) and node provisioning, as a state machine over their tables.

    Requests run concurrently, so a step is a single database statement (or transaction) of one request.
    What a request does next is its task; between two of its statements any other request may run. */
module GrantMachine {
  import opened Basics
  import opened Schema
  import opened Nodes

  // `hash` is the digest under which secrets are stored; nothing is assumed about it.
  datatype Config = Config(hash: string -> string, magicTtl: int)

  // What the outside world decides about one statement: the clock, whether it succeeds, the random
  // values drawn for it, and the answer of a lookup by user code.
  datatype Luck = Luck(now: int, up: bool, drawn: string, drawn2: string, found: Option<string>)

  datatype NodeKeys = NodeKeys(nodeToken: string, nodeId: string, introSecret: string)

  datatype Answer =
    | Broken
    | Started(deviceCode: string, userCode: string, expiresIn: int, interval: int)
    | LinkSent
    | NotConsumed
    | PendingDevice
    | LoggedIn(accessToken: string, userId: string)
    | DeviceApproved(accessToken: string, userId: string, keys: Option<NodeKeys>)
    | WebApproved
    | AccessDenied
    | ExpiredToken
    | SlowDown(interval: int)
    | AuthorizationPending(interval: int)
    | Granted(accessToken: string, nodeId: Option<string>, scope: string, introSecret: Option<string>)
    | KeyIssued(token: string)
    | LoggedOut

  // Provisioning ends a followed magic link, which issued a user token before, or a successful poll.
  datatype Ending = ByLink(userToken: string) | ByPoll

  // What a request is about to do. The first constructor of each group begins it.
  datatype Task =
    | OpenDevice(nodeType: string, endpoint: string, key: bytes)
    | AddDeviceNode(nodeType: string, endpoint: string, key: bytes, openedAt: int)
    | AddDeviceSession(node: Option<string>, openedAt: int)
    | StartLink(email: string, userCode: string)
    | AddLinkUser(email: string, device: Option<string>)
    | AddLink(user: string, device: Option<string>)
    | MailLink
    | FollowLink(token: string)
    | AddLoginToken(user: string)
    | ApproveByLink(h: string, user: string)
    | AddApprovalToken(h: string, user: string)
    | ReadApproval(h: string, user: string, userToken: string)
    | StartWebApproval(userCode: string, user: string)
    | ApproveOnWeb(h: string, user: string)
    | StartPoll(code: string)
    | JudgePoll(h: string, seen: Session)
    | StampPoll(h: string, interval: int)
    | ConsumePoll(h: string)
    | AddPollToken(h: string, user: string, node: Option<string>)
    | AddNodeToken(h: string, nodeId: string, user: string, end: Ending)
    | SetTokenHash(h: string, nodeId: string, user: string, nodeToken: string, end: Ending)
    | SetOwner(h: string, nodeId: string, user: string, nodeToken: string, end: Ending)
    | SetSecret(h: string, nodeId: string, user: string, nodeToken: string, end: Ending)
    | IssueKey(user: string)
    | Logout(token: string)
    | Done(answer: Answer)

  // The row a statement writes, if any.
  datatype Change =
    | Nothing
    | PutNode(id: string, node: Node)
    | PutUser(email: string, user: string)
    | PutMagic(hash: string, link: MagicToken)
    | PutToken(hash: string, token: ApiToken)
    | PutSession(hash: string, session: Session)

  function Apply(g: Grants, c: Change): Grants {
    match c
    case Nothing => g
    case PutNode(id, node) => g.(nodes := g.nodes[id := node])
    case PutUser(email, user) => g.(users := g.users[email := user])
    case PutMagic(hash, link) => g.(magic := g.magic[hash := link])
    case PutToken(hash, token) => g.(apiTokens := g.apiTokens[hash := token])
    case PutSession(hash, session) => g.(sessions := g.sessions[hash := session])
  }

  // ----- Single rows -----

  function NewNode(nodeType: string, endpoint: string, key: bytes, now: int): Node {
    Node(None, nodeType, endpoint, None, true, None, key, None, now, None, None)
  }

  function NewSession(userCode: string, nodeId: Option<string>, now: int, ttl: int): Session {
    Session(userCode, None, Pending, nodeId, now, now + WholeSeconds(ttl), None, None, 5, None)
  }

  predicate Approvable(s: Session, now: int) {
    s.status == Pending && s.expiresAt >= now
  }

  function ApprovedSession(s: Session, user: string, now: int): Session {
    s.(status := Approved, userId := Some(user), approvedAt := Some(now))
  }

  /** The consuming update only hits an approved session. */
  function ConsumedSession(s: Session, now: int): Session {
    if s.status == Approved then s.(status := Consumed, consumedAt := Some(now), lastPollAt := Some(now)) else s
  }

  predicate PolledTooSoon(s: Session, now: int) {
    s.lastPollAt.Some? && now - s.lastPollAt.value < s.pollInterval
  }

  predicate Usable(t: MagicToken, now: int) {
    t.usedAt.None? && t.expiresAt >= now
  }

  predicate KnownNodeType(nodeType: string) {
    nodeType == "JobOps" || nodeType == "LivingCV"
  }

  ghost predicate UserCodeTaken(sessions: map<string, Session>, userCode: string) {
    exists h :: h in sessions && sessions[h].userCode == userCode
  }

  /** `found` is an answer of the lookup by user code. */
  ghost predicate IsSessionByUserCode(sessions: map<string, Session>, userCode: string, found: Option<string>) {
    match found
    case None => !UserCodeTaken(sessions, userCode)
    case Some(h) => h in sessions && sessions[h].userCode == userCode
  }

  // ----- Statements -----

  /** Inserting a token row fails with the statement or on a taken hash. */
  function InsertToken(cfg: Config, g: Grants, user: string, node: Option<string>, tokenLabel: string, scope: string,
                       luck: Luck, next: Task): (Change, Task)
  {
    var hash := cfg.hash(luck.drawn);
    if !luck.up || hash in g.apiTokens then (Nothing, Done(Broken))
    else (PutToken(hash, ApiToken(user, node, tokenLabel, scope, Unix(luck.now), None)), next)
  }

  function OpenStatement(cfg: Config, g: Grants, t: Task, luck: Luck): (Change, Task) {
    match t
    case OpenDevice(nodeType, endpoint, key) =>
      (Nothing,
       if nodeType != "" && endpoint != "" then AddDeviceNode(nodeType, endpoint, key, Unix(luck.now))
       else AddDeviceSession(None, Unix(luck.now)))
    case AddDeviceNode(nodeType, endpoint, key, openedAt) =>
      if !luck.up || luck.drawn in g.nodes || !KnownNodeType(nodeType) then (Nothing, Done(Broken))
      else (PutNode(luck.drawn, NewNode(nodeType, endpoint, key, openedAt)),
            AddDeviceSession(Some(luck.drawn), openedAt))
    case _ => (Nothing, t)
  }

  ghost function SessionStatement(cfg: Config, g: Grants, t: Task, luck: Luck): (Change, Task)
    requires t.AddDeviceSession?
  {
    var h := cfg.hash(luck.drawn);
    if !luck.up || h in g.sessions || UserCodeTaken(g.sessions, luck.drawn2) then (Nothing, Done(Broken))
    else (PutSession(h, NewSession(luck.drawn2, t.node, t.openedAt, cfg.magicTtl)),
          Done(Started(luck.drawn, luck.drawn2, WholeSeconds(cfg.magicTtl), 5)))
  }

  /** An empty user code is not looked up; an unknown one yields a link without a device. */
  function LinkStatement(cfg: Config, g: Grants, t: Task, luck: Luck): (Change, Task) {
    match t
    case StartLink(email, userCode) =>
      if userCode == "" then (Nothing, AddLinkUser(email, None))
      else (Nothing, if luck.up then AddLinkUser(email, luck.found) else Done(Broken))
    case AddLinkUser(email, device) =>
      if !luck.up || (email !in g.users && luck.drawn in g.users.Values) then (Nothing, Done(Broken))
      else if email in g.users then (Nothing, AddLink(g.users[email], device))
      else (PutUser(email, luck.drawn), AddLink(luck.drawn, device))
    case AddLink(user, device) =>
      var hash := cfg.hash(luck.drawn);
      if !luck.up || hash in g.magic then (Nothing, Done(Broken))
      else (PutMagic(hash, MagicToken(Some(user), device, Unix(luck.now + cfg.magicTtl), None)), MailLink)
    case MailLink => (Nothing, Done(if luck.up then LinkSent else Broken))
    case _ => (Nothing, t)
  }

  function ApprovalStatement(cfg: Config, g: Grants, t: Task, luck: Luck): (Change, Task) {
    match t
    case FollowLink(token) =>
      var hash, now := cfg.hash(token), Unix(luck.now);
      if !luck.up then (Nothing, Done(Broken)) else
      if hash !in g.magic || !Usable(g.magic[hash], now) then (Nothing, Done(NotConsumed)) else
      var link := g.magic[hash];
      (PutMagic(hash, link.(usedAt := Some(now))),
       if link.userId.None? then Done(if link.deviceCodeHash.Some? then PendingDevice else LoggedIn("", ""))
       else if link.deviceCodeHash.Some? then ApproveByLink(link.deviceCodeHash.value, link.userId.value)
       else AddLoginToken(link.userId.value))
    case AddLoginToken(user) =>
      InsertToken(cfg, g, user, None, "magic-link", "all", luck, Done(LoggedIn(luck.drawn, user)))
    case ApproveByLink(h, user) => Approval(g, h, user, luck, AddApprovalToken(h, user))
    case AddApprovalToken(h, user) =>
      InsertToken(cfg, g, user, None, "magic-link", "all", luck, ReadApproval(h, user, luck.drawn))
    case ReadApproval(h, user, userToken) =>
      (Nothing,
       if !luck.up || h !in g.sessions || g.sessions[h].nodeId.None? then Done(DeviceApproved(userToken, user, None))
       else AddNodeToken(h, g.sessions[h].nodeId.value, user, ByLink(userToken)))
    case StartWebApproval(userCode, user) =>
      (Nothing, if luck.up && luck.found.Some? then ApproveOnWeb(luck.found.value, user) else Done(Broken))
    case ApproveOnWeb(h, user) => Approval(g, h, user, luck, Done(WebApproved))
    case _ => (Nothing, t)
  }

  function Approval(g: Grants, h: string, user: string, luck: Luck, next: Task): (Change, Task) {
    if !luck.up || h !in g.sessions || !Approvable(g.sessions[h], Unix(luck.now)) then (Nothing, Done(Broken))
    else (PutSession(h, ApprovedSession(g.sessions[h], user, Unix(luck.now))), next)
  }

  /** What a poll does after its lookup depends on the row it read, however old that is by then. Consuming
      does not check that its update hit; it goes on with the row as it then reads. */
  function PollStatement(cfg: Config, g: Grants, t: Task, luck: Luck): (Change, Task) {
    match t
    case StartPoll(code) =>
      var h := cfg.hash(code);
      (Nothing,
       if !luck.up then Done(Broken)
       else if h !in g.sessions then Done(ExpiredToken)
       else match g.sessions[h].status
         case Pending => JudgePoll(h, g.sessions[h])
         case Approved => ConsumePoll(h)
         case Denied => Done(AccessDenied)
         case _ => Done(ExpiredToken))
    case JudgePoll(h, seen) =>
      (Nothing,
       if seen.expiresAt < Unix(luck.now) then Done(ExpiredToken)
       else if PolledTooSoon(seen, Unix(luck.now)) then Done(SlowDown(seen.pollInterval + 5))
       else StampPoll(h, seen.pollInterval))
    case StampPoll(h, interval) =>
      if !luck.up then (Nothing, Done(Broken))
      else (if h in g.sessions then PutSession(h, g.sessions[h].(lastPollAt := Some(Unix(luck.now)))) else Nothing,
            Done(AuthorizationPending(interval)))
    case ConsumePoll(h) =>
      if !luck.up || h !in g.sessions then (Nothing, Done(Broken)) else
      var s := ConsumedSession(g.sessions[h], Unix(luck.now));
      (PutSession(h, s), if s.userId.None? then Done(ExpiredToken) else AddPollToken(h, s.userId.value, s.nodeId))
    case AddPollToken(h, user, node) =>
      InsertToken(cfg, g, user, None, "device-flow", "all", luck,
                  if node.None? then Done(Granted(luck.drawn, None, "all", None))
                  else AddNodeToken(h, node.value, user, ByPoll))
    case _ => (Nothing, t)
  }

  function Handed(end: Ending, node: string, user: string, nodeToken: string, secret: string): Answer {
    match end
    case ByLink(userToken) => DeviceApproved(userToken, user, Some(NodeKeys(nodeToken, node, secret)))
    case ByPoll => Granted(nodeToken, Some(node), "node:push", Some(secret))
  }

  /** The four writes that hand a node its credentials: a token row, its hash, the owner, a fresh secret. */
  function ProvisionStatement(cfg: Config, g: Grants, t: Task, luck: Luck): (Change, Task) {
    match t
    case AddNodeToken(h, n, user, end) =>
      InsertToken(cfg, g, user, Some(n), "device-node", "node:push", luck,
                  SetTokenHash(h, n, user, luck.drawn, end))
    case SetTokenHash(h, n, user, token, end) =>
      if !luck.up then (Nothing, Done(Broken))
      else (if n in g.nodes then PutNode(n, g.nodes[n].(tokenHash := Some(cfg.hash(token)))) else Nothing,
            SetOwner(h, n, user, token, end))
    case SetOwner(h, n, user, token, end) =>
      if !luck.up then (Nothing, Done(Broken))
      else (if n in g.nodes && g.nodes[n].userId.None? then PutNode(n, g.nodes[n].(userId := Some(user))) else Nothing,
            SetSecret(h, n, user, token, end))
    case SetSecret(_, n, user, token, end) =>
      if !luck.up then (Nothing, Done(Broken))
      else (if n in g.nodes then PutNode(n, g.nodes[n].(introSecret := Some(luck.drawn))) else Nothing,
            Done(Handed(end, n, user, token, luck.drawn)))
    case _ => (Nothing, t)
  }

  function KeyStatement(cfg: Config, g: Grants, t: Task, luck: Luck): (Change, Task) {
    match t
    case IssueKey(user) =>
      InsertToken(cfg, g, user, None, "mcp-api", "talent:search", luck, Done(KeyIssued(luck.drawn)))
    case Logout(token) =>
      var hash := cfg.hash(token);
      if !luck.up then (Nothing, Done(Broken))
      else (if hash !in g.apiTokens then Nothing
            else PutToken(hash, g.apiTokens[hash].(revokedAt := Some(Unix(luck.now)))),
            Done(LoggedOut))
    case _ => (Nothing, t)
  }

  /** The row a task's next statement writes, and what the request does after it. */
  ghost function Statement(cfg: Config, g: Grants, t: Task, luck: Luck): (Change, Task) {
    if t.AddDeviceSession? then SessionStatement(cfg, g, t, luck)
    else if t.OpenDevice? || t.AddDeviceNode? then OpenStatement(cfg, g, t, luck)
    else if t.StartLink? || t.AddLinkUser? || t.AddLink? || t.MailLink? then LinkStatement(cfg, g, t, luck)
    else if t.StartPoll? || t.JudgePoll? || t.StampPoll? || t.ConsumePoll? || t.AddPollToken?
    then PollStatement(cfg, g, t, luck)
    else if t.AddNodeToken? || t.SetTokenHash? || t.SetOwner? || t.SetSecret? then ProvisionStatement(cfg, g, t, luck)
    else if t.IssueKey? || t.Logout? then KeyStatement(cfg, g, t, luck)
    else ApprovalStatement(cfg, g, t, luck)
  }

  /** A request that is not interrupted: its statements run one after the other, until it is done or the
      lucks are used up. */
  ghost function Alone(cfg: Config, g: Grants, t: Task, lucks: seq<Luck>): (Grants, Task)
    decreases |lucks|
  {
    if t.Done? || lucks == [] then (g, t) else
    var (c, t') := Statement(cfg, g, t, lucks[0]);
    Alone(cfg, Apply(g, c), t', lucks[1..])
  }

  lemma AloneStep(cfg: Config, g: Grants, t: Task, lucks: seq<Luck>)
    requires !t.Done? && |lucks| > 0
    ensures var (c, t') := Statement(cfg, g, t, lucks[0]);
            Alone(cfg, g, t, lucks) == if t'.Done? then (Apply(g, c), t') else Alone(cfg, Apply(g, c), t', lucks[1..])
  {
  }

  // ----- The machine -----

  // A request: what it began with and what it does next.
  datatype Job = Job(start: Task, at: Task)

  datatype Site = Site(g: Grants, clock: int, jobs: seq<Job>)

  // `Revoke` and `Ping` are the node updates made on behalf of the snapshot catalog.
  datatype Step =
    | Tick(now: int)
    | Begin(start: Task)
    | Run(job: nat, luck: Luck)
    | Revoke(node: string, now: int)
    | Ping(node: string, now: int)

  predicate Starts(t: Task) {
    t.OpenDevice? || t.StartLink? || t.FollowLink? || t.StartWebApproval? || t.StartPoll? || t.IssueKey? || t.Logout?
  }

  ghost predicate FoundIs(g: Grants, t: Task, found: Option<string>) {
    t.StartLink? || t.StartWebApproval? ==> IsSessionByUserCode(g.sessions, t.userCode, found)
  }

  ghost predicate Enabled(s: Site, step: Step) {
    match step
    case Tick(now) => s.clock <= now
    case Begin(start) => Starts(start)
    case Run(i, luck) =>
      i < |s.jobs| && !s.jobs[i].at.Done? && s.clock <= luck.now && FoundIs(s.g, s.jobs[i].at, luck.found)
    case Revoke(_, now) => s.clock <= now
    case Ping(_, now) => s.clock <= now
  }

  /** The row written by a step. */
  ghost function Effect(cfg: Config, s: Site, step: Step): Change
    requires Enabled(s, step)
  {
    match step
    case Run(i, luck) => Statement(cfg, s.g, s.jobs[i].at, luck).0
    case Revoke(n, now) =>
      if n in s.g.nodes then PutNode(n, s.g.nodes[n].(active := false, revokedAt := Some(Unix(now)))) else Nothing
    case Ping(n, now) => if n in s.g.nodes then PutNode(n, s.g.nodes[n].(lastPing := Some(Unix(now)))) else Nothing
    case _ => Nothing
  }

  ghost function Jobs(cfg: Config, s: Site, step: Step): seq<Job>
    requires Enabled(s, step)
  {
    match step
    case Begin(start) => s.jobs + [Job(start, start)]
    case Run(i, luck) => s.jobs[i := Job(s.jobs[i].start, Statement(cfg, s.g, s.jobs[i].at, luck).1)]
    case _ => s.jobs
  }

  function Time(s: Site, step: Step): int {
    match step
    case Tick(now) => now
    case Begin(_) => s.clock
    case Run(_, luck) => luck.now
    case Revoke(_, now) => now
    case Ping(_, now) => now
  }

  ghost function Next(cfg: Config, s: Site, step: Step): Site
    requires Enabled(s, step)
  {
    Site(Apply(s.g, Effect(cfg, s, step)), Time(s, step), Jobs(cfg, s, step))
  }

  ghost predicate IsTrace(cfg: Config, ss: seq<Site>, steps: seq<Step>) {
    && |ss| == |steps| + 1
    && forall i :: 0 <= i < |steps| ==> StepAt(cfg, ss, steps, i)
  }

  ghost predicate StepAt(cfg: Config, ss: seq<Site>, steps: seq<Step>, i: int)
    requires 0 <= i < |steps| < |ss|
  {
    Enabled(ss[i], steps[i]) && ss[i + 1] == Next(cfg, ss[i], steps[i])
  }

  ghost predicate Initial(s: Site) {
    s.g == Grants(map[], map[], map[], map[], map[]) && s.jobs == []
  }

  // ----- The invariant -----

  /** Session `h` was opened for node `n`. */
  predicate Bound(g: Grants, h: string, n: string) {
    h in g.sessions && g.sessions[h].nodeId == Some(n)
  }

  /** Some session opened for node `n` was approved by `user`. */
  ghost predicate Linked(g: Grants, n: string, user: string) {
    exists h :: Bound(g, h, n) && g.sessions[h].userId == Some(user)
  }

  predicate SessionOk(s: Session, now: int) {
    && s.pollInterval == 5
    && s.createdAt <= now
    && (s.lastPollAt.Some? ==> s.lastPollAt.value <= now)
    && (s.approvedAt.Some? ==> s.approvedAt.value <= s.expiresAt)
    && match s.status
       case Pending => s.userId.None? && s.approvedAt.None? && s.consumedAt.None?
       case Approved => s.userId.Some? && s.approvedAt.Some? && s.consumedAt.None?
       case Consumed => s.userId.Some? && s.approvedAt.Some? && s.consumedAt.Some?
       case _ => false
  }

  predicate SessionsOk(g: Grants, now: int) {
    forall h :: h in g.sessions ==> SessionOk(g.sessions[h], now)
  }

  /** Sessions, nodes and tokens agree: a session's node exists and belongs to that session alone, and
      whoever owns a node or holds a token for it is the user who approved that session. */
  ghost predicate Links(g: Grants) {
    && (forall h, n :: Bound(g, h, n) ==> n in g.nodes)
    && (forall h, k, n :: Bound(g, h, n) && Bound(g, k, n) ==> h == k)
    && (forall t :: t in g.apiTokens && g.apiTokens[t].nodeId.Some? ==>
          Linked(g, g.apiTokens[t].nodeId.value, g.apiTokens[t].userId))
    && (forall n :: n in g.nodes && g.nodes[n].userId.Some? ==> Linked(g, n, g.nodes[n].userId.value))
  }

  function Rank(s: SessionStatus): nat {
    match s
    case Pending => 0
    case Approved => 1
    case Consumed => 2
    case _ => 3
  }

  /** How a session may change over any stretch of a run: it keeps its identity and deadlines, its status
      only moves forward, and the data of an approval or a consumption stay. */
  predicate Evolves(s: Session, s': Session) {
    && s'.userCode == s.userCode && s'.nodeId == s.nodeId && s'.createdAt == s.createdAt
    && s'.expiresAt == s.expiresAt && s'.pollInterval == s.pollInterval
    && Rank(s.status) <= Rank(s'.status)
    && (s.lastPollAt.Some? ==> s'.lastPollAt.Some? && s.lastPollAt.value <= s'.lastPollAt.value)
    && (s.status != Pending ==> s'.userId == s.userId && s'.approvedAt == s.approvedAt)
    && (s.status == Consumed ==> s' == s.(lastPollAt := s'.lastPollAt))
  }

  /** Session `h` was approved by `user`. */
  predicate ApprovedBy(g: Grants, h: string, user: string) {
    h in g.sessions && g.sessions[h].status != Pending && g.sessions[h].userId == Some(user)
  }

  predicate SessionConsumed(g: Grants, h: string) {
    h in g.sessions && g.sessions[h].status == Consumed
  }

  predicate Provisions(t: Task) {
    t.AddNodeToken? || t.SetTokenHash? || t.SetOwner? || t.SetSecret?
  }

  /** What a request knows about the tables when it gets to its task. */
  ghost predicate TaskOk(g: Grants, now: int, t: Task) {
    match t
    case AddDeviceNode(_, _, _, openedAt) => openedAt <= now
    case AddDeviceSession(node, openedAt) =>
      openedAt <= now && (node.Some? ==> node.value in g.nodes && forall h :: !Bound(g, h, node.value))
    case AddApprovalToken(h, user) => ApprovedBy(g, h, user)
    case ReadApproval(h, user, _) => ApprovedBy(g, h, user)
    case JudgePoll(h, seen) => h in g.sessions && seen.status == Pending && Evolves(seen, g.sessions[h])
    case StampPoll(h, interval) => h in g.sessions && interval == 5
    case ConsumePoll(h) => h in g.sessions && g.sessions[h].status != Pending
    case AddPollToken(h, user, node) =>
      ApprovedBy(g, h, user) && SessionConsumed(g, h) && g.sessions[h].nodeId == node
    case _ =>
      Provisions(t) ==>
        ApprovedBy(g, t.h, t.user) && Bound(g, t.h, t.nodeId) && (t.end.ByPoll? ==> SessionConsumed(g, t.h))
  }

  /** Which tasks a request can have come to. */
  predicate StoryOk(cfg: Config, job: Job) {
    var t := job.at;
    t.JudgePoll? || t.StampPoll? || t.ConsumePoll? || t.AddPollToken? || (Provisions(t) && t.end.ByPoll?) ==>
      job.start.StartPoll? && cfg.hash(job.start.code) == t.h
  }

  predicate AnswerOk(job: Job) {
    && (job.at.Done? && (job.at.answer.Granted? || job.at.answer.AuthorizationPending?) ==> job.start.StartPoll?)
    && (Starts(job.at) ==> job.start == job.at)
  }

  /** A request that is about to open a session for node `n`. */
  predicate Opening(job: Job, n: string) {
    job.at.AddDeviceSession? && job.at.node == Some(n)
  }

  /** No two requests are about to open a session for one node. */
  ghost predicate OpenNodesDiffer(jobs: seq<Job>) {
    forall i, j, n :: 0 <= i < |jobs| && 0 <= j < |jobs| && Opening(jobs[i], n) && Opening(jobs[j], n) ==> i == j
  }

  ghost predicate JobsOk(cfg: Config, g: Grants, now: int, jobs: seq<Job>) {
    && OpenNodesDiffer(jobs)
    && forall i :: 0 <= i < |jobs| ==> JobOk(cfg, g, now, jobs[i])
  }

  ghost predicate JobOk(cfg: Config, g: Grants, now: int, job: Job) {
    TaskOk(g, now, job.at) && StoryOk(cfg, job) && AnswerOk(job)
  }

  ghost predicate Inv(cfg: Config, s: Site) {
    SessionsOk(s.g, Unix(s.clock)) && Links(s.g) && JobsOk(cfg, s.g, Unix(s.clock), s.jobs)
  }
}
