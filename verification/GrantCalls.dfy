/** What one whole request of the sign-in service answers and leaves in the tables, when it is not interrupted and
    every statement succeeds; and what a statement that fails does. */
module GrantCalls {
  import opened Basics
  import opened Schema
  import opened GrantMachine

  predicate AllUp(lucks: seq<Luck>) {
    forall i :: 0 <= i < |lucks| ==> lucks[i].up
  }

  /** Two digests that are not taken. */
  predicate TwoFresh(cfg: Config, g: Grants, first: string, second: string) {
    cfg.hash(first) !in g.apiTokens && cfg.hash(second) !in g.apiTokens && cfg.hash(first) != cfg.hash(second)
  }

  lemma AloneTwice(cfg: Config, g: Grants, t: Task, lucks: seq<Luck>)
    requires !t.Done? && |lucks| > 1
    ensures var (c, t') := Statement(cfg, g, t, lucks[0]);
            var (c', t'') := Statement(cfg, Apply(g, c), t', lucks[1]);
            !t'.Done? ==>
              Alone(cfg, g, t, lucks) ==
              if t''.Done? then (Apply(Apply(g, c), c'), t'') else Alone(cfg, Apply(Apply(g, c), c'), t'', lucks[2..])
  {
    AloneStep(cfg, g, t, lucks);
    var (c, t') := Statement(cfg, g, t, lucks[0]);
    if !t'.Done? {
      AloneStep(cfg, Apply(g, c), t', lucks[1..]);
      assert lucks[1..][0] == lucks[1] && lucks[1..][1..] == lucks[2..];
    }
  }

  // ----- The tables afterwards -----

  function WithSession(g: Grants, h: string, s: Session): Grants {
    g.(sessions := g.sessions[h := s])
  }

  function WithLink(g: Grants, h: string, link: MagicToken): Grants {
    g.(magic := g.magic[h := link])
  }

  function WithNode(g: Grants, n: string, node: Node): Grants {
    g.(nodes := g.nodes[n := node])
  }

  /** The tables with a token row more. */
  function Issued(cfg: Config, g: Grants, token: string, user: string, node: Option<string>, tokenLabel: string,
                  scope: string, now: int): Grants
  {
    g.(apiTokens := g.apiTokens[cfg.hash(token) := ApiToken(user, node, tokenLabel, scope, now, None)])
  }

  /** The node as provisioning leaves it: with the token's digest, the owner it had or else the user, and the
      secret. */
  function Provisioned(n: Node, hash: string, user: string, secret: string): Node {
    n.(tokenHash := Some(hash), userId := if n.userId.Some? then n.userId else Some(user), introSecret := Some(secret))
  }

  /** The tables after provisioning: a token row for the node, and the node itself. */
  function Keyed(cfg: Config, g: Grants, n: string, user: string, token: string, secret: string, now: int): Grants
    requires n in g.nodes
  {
    WithNode(Issued(cfg, g, token, user, Some(n), "device-node", "node:push", now), n,
             Provisioned(g.nodes[n], cfg.hash(token), user, secret))
  }

  // ----- Provisioning -----

  /** What the end of provisioning hands out. */
  function Handout(end: Ending, n: string, user: string, token: string, secret: string): Answer {
    match end
    case ByPoll => Granted(token, Some(n), "node:push", Some(secret))
    case ByLink(userToken) => DeviceApproved(userToken, user, Some(NodeKeys(token, n, secret)))
  }

  lemma SameNode(g: Grants, n: string, first: Node, second: Node)
    ensures WithNode(WithNode(g, n, first), n, second) == WithNode(g, n, second)
  {
    assert g.nodes[n := first][n := second] == g.nodes[n := second];
  }

  lemma SecretOutcome(cfg: Config, g: Grants, h: string, n: string, user: string, token: string, end: Ending,
                      lucks: seq<Luck>)
    requires |lucks| >= 1 && AllUp(lucks) && n in g.nodes
    ensures Alone(cfg, g, SetSecret(h, n, user, token, end), lucks) ==
            (WithNode(g, n, g.nodes[n].(introSecret := Some(lucks[0].drawn))),
             Done(Handout(end, n, user, token, lucks[0].drawn)))
  {
    AloneStep(cfg, g, SetSecret(h, n, user, token, end), lucks);
  }

  lemma OwnerOutcome(cfg: Config, g: Grants, h: string, n: string, user: string, token: string, end: Ending,
                     lucks: seq<Luck>)
    requires |lucks| >= 2 && AllUp(lucks) && n in g.nodes
    ensures var owner := if g.nodes[n].userId.Some? then g.nodes[n].userId else Some(user);
            Alone(cfg, g, SetOwner(h, n, user, token, end), lucks) ==
            (WithNode(g, n, g.nodes[n].(userId := owner, introSecret := Some(lucks[1].drawn))),
             Done(Handout(end, n, user, token, lucks[1].drawn)))
  {
    AloneStep(cfg, g, SetOwner(h, n, user, token, end), lucks);
    var owner := if g.nodes[n].userId.Some? then g.nodes[n].userId else Some(user);
    var owned := g.nodes[n].(userId := owner);
    var g' := if g.nodes[n].userId.Some? then g else WithNode(g, n, owned);
    assert g'.nodes[n] == owned;
    SecretOutcome(cfg, g', h, n, user, token, end, lucks[1..]);
    SameNode(g, n, owned, owned.(introSecret := Some(lucks[1].drawn)));
  }

  lemma CredentialsOutcome(cfg: Config, g: Grants, h: string, n: string, user: string, token: string, end: Ending,
                           lucks: seq<Luck>)
    requires |lucks| >= 3 && AllUp(lucks) && n in g.nodes
    ensures Alone(cfg, g, SetTokenHash(h, n, user, token, end), lucks) ==
            (WithNode(g, n, Provisioned(g.nodes[n], cfg.hash(token), user, lucks[2].drawn)),
             Done(Handout(end, n, user, token, lucks[2].drawn)))
  {
    AloneStep(cfg, g, SetTokenHash(h, n, user, token, end), lucks);
    var keyed := g.nodes[n].(tokenHash := Some(cfg.hash(token)));
    OwnerOutcome(cfg, WithNode(g, n, keyed), h, n, user, token, end, lucks[1..]);
    assert lucks[1..][1] == lucks[2];
    SameNode(g, n, keyed, Provisioned(g.nodes[n], cfg.hash(token), user, lucks[2].drawn));
  }

  lemma NodeTokenOutcome(cfg: Config, g: Grants, h: string, n: string, user: string, end: Ending, lucks: seq<Luck>)
    requires |lucks| >= 1 && AllUp(lucks) && cfg.hash(lucks[0].drawn) !in g.apiTokens
    ensures var token := lucks[0].drawn;
            Alone(cfg, g, AddNodeToken(h, n, user, end), lucks) ==
            Alone(cfg, Issued(cfg, g, token, user, Some(n), "device-node", "node:push", Unix(lucks[0].now)),
                  SetTokenHash(h, n, user, token, end), lucks[1..])
  {
    AloneStep(cfg, g, AddNodeToken(h, n, user, end), lucks);
  }

  /** The four writes of provisioning: a token row for the node, its digest, the owner unless there is one, and the
      secret; the token and the secret are handed out. */
  lemma ProvisionOutcome(cfg: Config, g: Grants, h: string, n: string, user: string, end: Ending, lucks: seq<Luck>)
    requires |lucks| >= 4 && AllUp(lucks) && n in g.nodes && cfg.hash(lucks[0].drawn) !in g.apiTokens
    ensures Alone(cfg, g, AddNodeToken(h, n, user, end), lucks) ==
            (Keyed(cfg, g, n, user, lucks[0].drawn, lucks[3].drawn, Unix(lucks[0].now)),
             Done(Handout(end, n, user, lucks[0].drawn, lucks[3].drawn)))
  {
    NodeTokenOutcome(cfg, g, h, n, user, end, lucks);
    var issued := Issued(cfg, g, lucks[0].drawn, user, Some(n), "device-node", "node:push", Unix(lucks[0].now));
    CredentialsOutcome(cfg, issued, h, n, user, lucks[0].drawn, end, lucks[1..]);
    assert lucks[1..][2] == lucks[3];
  }

  // ----- Polls -----

  /** What the code reads as when the poll looks it up and judges it a moment later. */
  datatype Reading = Unknown | Waiting(early: bool) | Ready | Spent | Refused

  function ReadingOf(cfg: Config, g: Grants, code: string, now: int): Reading {
    var h := cfg.hash(code);
    if h !in g.sessions then Unknown
    else
      var s := g.sessions[h];
      match s.status
      case Pending =>
        if s.expiresAt < now then Spent else Waiting(s.lastPollAt.Some? && now - s.lastPollAt.value < s.pollInterval)
      case Approved => Ready
      case Denied => Refused
      case _ => Spent
  }

  /** A poll that is not granted: what it is told depends on the session alone, and only a poll that is told to go
      on leaves a trace, its stamp. */
  lemma UngrantedPollOutcome(cfg: Config, g: Grants, code: string, lucks: seq<Luck>)
    requires |lucks| >= 3 && AllUp(lucks) && !ReadingOf(cfg, g, code, Unix(lucks[1].now)).Ready?
    ensures var h := cfg.hash(code);
            var outcome := Alone(cfg, g, StartPoll(code), lucks);
            match ReadingOf(cfg, g, code, Unix(lucks[1].now))
            case Unknown => outcome == (g, Done(ExpiredToken))
            case Spent => outcome == (g, Done(ExpiredToken))
            case Refused => outcome == (g, Done(AccessDenied))
            case Waiting(early) =>
              if early then outcome == (g, Done(SlowDown(g.sessions[h].pollInterval + 5)))
              else
                outcome == (WithSession(g, h, g.sessions[h].(lastPollAt := Some(Unix(lucks[2].now)))),
                            Done(AuthorizationPending(g.sessions[h].pollInterval)))
  {
    var h := cfg.hash(code);
    AloneStep(cfg, g, StartPoll(code), lucks);
    if h in g.sessions && g.sessions[h].status == Pending {
      AloneTwice(cfg, g, StartPoll(code), lucks);
      if ReadingOf(cfg, g, code, Unix(lucks[1].now)) == Waiting(false) {
        AloneStep(cfg, g, StampPoll(h, g.sessions[h].pollInterval), lucks[2..]);
        assert lucks[2..][0] == lucks[2];
      }
    }
  }

  /** The tables once the session has been consumed. */
  function ConsumedAt(g: Grants, h: string, now: int): Grants
    requires h in g.sessions
  {
    WithSession(g, h, g.sessions[h].(status := Consumed, consumedAt := Some(now), lastPollAt := Some(now)))
  }

  /** The tables once a poll has issued its first token. */
  function Polled(cfg: Config, g: Grants, h: string, user: string, consume: Luck, issue: Luck): Grants
    requires h in g.sessions
  {
    Issued(cfg, ConsumedAt(g, h, Unix(consume.now)), issue.drawn, user, None, "device-flow", "all", Unix(issue.now))
  }

  /** A poll of an approved session: the session is consumed, and the token handed out is stored for the user who
      approved it; for a session with a node it is the node's, and the node's digest and secret are those handed
      out. */
  lemma GrantedPollOutcome(cfg: Config, g: Grants, code: string, lucks: seq<Luck>)
    requires |lucks| >= 7 && AllUp(lucks) && TwoFresh(cfg, g, lucks[2].drawn, lucks[3].drawn)
    requires ReadingOf(cfg, g, code, Unix(lucks[1].now)).Ready? && g.sessions[cfg.hash(code)].userId.Some?
    requires var node := g.sessions[cfg.hash(code)].nodeId; node.Some? ==> node.value in g.nodes
    ensures var s := g.sessions[cfg.hash(code)];
            var issued := Polled(cfg, g, cfg.hash(code), s.userId.value, lucks[1], lucks[2]);
            Alone(cfg, g, StartPoll(code), lucks) ==
            if s.nodeId.None? then (issued, Done(Granted(lucks[2].drawn, None, "all", None)))
            else
              (Keyed(cfg, issued, s.nodeId.value, s.userId.value, lucks[3].drawn, lucks[6].drawn, Unix(lucks[3].now)),
               Done(Granted(lucks[3].drawn, s.nodeId, "node:push", Some(lucks[6].drawn))))
  {
    var h := cfg.hash(code);
    ConsumeOutcome(cfg, g, code, lucks);
    TokenOutcome(cfg, ConsumedAt(g, h, Unix(lucks[1].now)), h, g.sessions[h].userId.value, g.sessions[h].nodeId,
                 lucks[2..]);
    assert lucks[2..][0] == lucks[2] && lucks[2..][1] == lucks[3] && lucks[2..][4] == lucks[6];
  }

  lemma ConsumeOutcome(cfg: Config, g: Grants, code: string, lucks: seq<Luck>)
    requires |lucks| >= 2 && AllUp(lucks)
    requires ReadingOf(cfg, g, code, Unix(lucks[1].now)).Ready? && g.sessions[cfg.hash(code)].userId.Some?
    ensures var s := g.sessions[cfg.hash(code)];
            Alone(cfg, g, StartPoll(code), lucks) ==
            Alone(cfg, ConsumedAt(g, cfg.hash(code), Unix(lucks[1].now)),
                  AddPollToken(cfg.hash(code), s.userId.value, s.nodeId), lucks[2..])
  {
    AloneTwice(cfg, g, StartPoll(code), lucks);
  }

  lemma TokenOutcome(cfg: Config, g: Grants, h: string, user: string, node: Option<string>, lucks: seq<Luck>)
    requires |lucks| >= 5 && AllUp(lucks) && TwoFresh(cfg, g, lucks[0].drawn, lucks[1].drawn)
    requires node.Some? ==> node.value in g.nodes
    ensures var issued := Issued(cfg, g, lucks[0].drawn, user, None, "device-flow", "all", Unix(lucks[0].now));
            Alone(cfg, g, AddPollToken(h, user, node), lucks) ==
            if node.None? then (issued, Done(Granted(lucks[0].drawn, None, "all", None)))
            else (Keyed(cfg, issued, node.value, user, lucks[1].drawn, lucks[4].drawn, Unix(lucks[1].now)),
                  Done(Granted(lucks[1].drawn, node, "node:push", Some(lucks[4].drawn))))
  {
    AloneStep(cfg, g, AddPollToken(h, user, node), lucks);
    if node.Some? {
      FirstTokenOutcome(cfg, g, h, user, node.value, lucks);
      var issued := Issued(cfg, g, lucks[0].drawn, user, None, "device-flow", "all", Unix(lucks[0].now));
      ProvisionOutcome(cfg, issued, h, node.value, user, ByPoll, lucks[1..]);
      assert lucks[1..][0] == lucks[1] && lucks[1..][3] == lucks[4];
    }
  }

  lemma FirstTokenOutcome(cfg: Config, g: Grants, h: string, user: string, n: string, lucks: seq<Luck>)
    requires |lucks| >= 1 && AllUp(lucks) && cfg.hash(lucks[0].drawn) !in g.apiTokens
    ensures Alone(cfg, g, AddPollToken(h, user, Some(n)), lucks) ==
            Alone(cfg, Issued(cfg, g, lucks[0].drawn, user, None, "device-flow", "all", Unix(lucks[0].now)),
                  AddNodeToken(h, n, user, ByPoll), lucks[1..])
  {
    AloneStep(cfg, g, AddPollToken(h, user, Some(n)), lucks);
  }

  // ----- Opening a session -----

  /** The digest and the user code are not taken. */
  predicate FreshSession(cfg: Config, g: Grants, luck: Luck) {
    cfg.hash(luck.drawn) !in g.sessions && forall h :: h in g.sessions ==> g.sessions[h].userCode != luck.drawn2
  }

  /** A session that waits for approval for the configured time, under a fresh code and user code. */
  function Opened(cfg: Config, g: Grants, node: Option<string>, openedAt: int, luck: Luck): Grants {
    WithSession(g, cfg.hash(luck.drawn),
                Session(userCode := luck.drawn2, userId := None, status := Pending, nodeId := node,
                        createdAt := openedAt, expiresAt := openedAt + WholeSeconds(cfg.magicTtl), approvedAt := None,
                        consumedAt := None, pollInterval := 5, lastPollAt := None))
  }

  lemma SessionOutcome(cfg: Config, g: Grants, node: Option<string>, openedAt: int, lucks: seq<Luck>)
    requires |lucks| >= 1 && AllUp(lucks) && FreshSession(cfg, g, lucks[0])
    ensures Alone(cfg, g, AddDeviceSession(node, openedAt), lucks) ==
            (Opened(cfg, g, node, openedAt, lucks[0]),
             Done(Started(lucks[0].drawn, lucks[0].drawn2, WholeSeconds(cfg.magicTtl), 5)))
  {
    AloneStep(cfg, g, AddDeviceSession(node, openedAt), lucks);
  }

  /** Without a node type or an endpoint only a session is opened. */
  lemma OpenPlainOutcome(cfg: Config, g: Grants, nodeType: string, endpoint: string, key: bytes, lucks: seq<Luck>)
    requires |lucks| >= 2 && AllUp(lucks) && (nodeType == "" || endpoint == "") && FreshSession(cfg, g, lucks[1])
    ensures Alone(cfg, g, OpenDevice(nodeType, endpoint, key), lucks) ==
            (Opened(cfg, g, None, Unix(lucks[0].now), lucks[1]),
             Done(Started(lucks[1].drawn, lucks[1].drawn2, WholeSeconds(cfg.magicTtl), 5)))
  {
    AloneStep(cfg, g, OpenDevice(nodeType, endpoint, key), lucks);
    SessionOutcome(cfg, g, None, Unix(lucks[0].now), lucks[1..]);
  }

  function AddedNode(nodeType: string, endpoint: string, key: bytes, now: int): Node {
    Node(userId := None, nodeType := nodeType, endpoint := endpoint, lastPing := None, active := true,
         tokenHash := None, publicKey := key, displayName := None, createdAt := now, revokedAt := None,
         introSecret := None)
  }

  /** With both, a node of its own is added first, if its type is known, and the session names it. */
  lemma OpenNodeOutcome(cfg: Config, g: Grants, nodeType: string, endpoint: string, key: bytes, lucks: seq<Luck>)
    requires |lucks| >= 3 && AllUp(lucks) && nodeType != "" && endpoint != "" && FreshSession(cfg, g, lucks[2])
    requires lucks[1].drawn !in g.nodes
    ensures var n, now := lucks[1].drawn, Unix(lucks[0].now);
            Alone(cfg, g, OpenDevice(nodeType, endpoint, key), lucks) ==
            if nodeType != "JobOps" && nodeType != "LivingCV" then (g, Done(Broken))
            else (Opened(cfg, WithNode(g, n, AddedNode(nodeType, endpoint, key, now)), Some(n), now, lucks[2]),
                  Done(Started(lucks[2].drawn, lucks[2].drawn2, WholeSeconds(cfg.magicTtl), 5)))
  {
    AloneTwice(cfg, g, OpenDevice(nodeType, endpoint, key), lucks);
    if nodeType == "JobOps" || nodeType == "LivingCV" {
      var n, now := lucks[1].drawn, Unix(lucks[0].now);
      SessionOutcome(cfg, WithNode(g, n, AddedNode(nodeType, endpoint, key, now)), Some(n), now, lucks[2..]);
      assert lucks[2..][0] == lucks[2];
    }
  }

  // ----- Links -----

  function WithUser(g: Grants, email: string, drawn: string): Grants {
    if email in g.users then g else g.(users := g.users[email := drawn])
  }

  /** Asking for a link: the user with the e-mail, or a new one, gets an unused link with a fresh digest, good for the
      configured time, for the session with the user code if there is one. */
  lemma LinkOutcome(cfg: Config, g: Grants, email: string, userCode: string, lucks: seq<Luck>)
    requires |lucks| >= 4 && AllUp(lucks) && cfg.hash(lucks[2].drawn) !in g.magic
    requires email in g.users || lucks[1].drawn !in g.users.Values
    ensures var user := if email in g.users then g.users[email] else lucks[1].drawn;
            var device := if userCode == "" then None else lucks[0].found;
            Alone(cfg, g, StartLink(email, userCode), lucks) ==
            (WithLink(WithUser(g, email, user), cfg.hash(lucks[2].drawn),
                      MagicToken(Some(user), device, Unix(lucks[2].now + cfg.magicTtl), None)),
             Done(LinkSent))
  {
    var user := if email in g.users then g.users[email] else lucks[1].drawn;
    var device := if userCode == "" then None else lucks[0].found;
    LinkUserOutcome(cfg, g, email, userCode, lucks);
    LinkRowOutcome(cfg, WithUser(g, email, user), user, device, lucks[2..]);
    assert lucks[2..][0] == lucks[2] && lucks[2..][1] == lucks[3];
  }

  lemma LinkUserOutcome(cfg: Config, g: Grants, email: string, userCode: string, lucks: seq<Luck>)
    requires |lucks| >= 2 && AllUp(lucks) && (email in g.users || lucks[1].drawn !in g.users.Values)
    ensures var user := if email in g.users then g.users[email] else lucks[1].drawn;
            var device := if userCode == "" then None else lucks[0].found;
            Alone(cfg, g, StartLink(email, userCode), lucks) ==
            Alone(cfg, WithUser(g, email, user), AddLink(user, device), lucks[2..])
  {
    AloneTwice(cfg, g, StartLink(email, userCode), lucks);
  }

  lemma LinkRowOutcome(cfg: Config, g: Grants, user: string, device: Option<string>, lucks: seq<Luck>)
    requires |lucks| >= 2 && AllUp(lucks) && cfg.hash(lucks[0].drawn) !in g.magic
    ensures Alone(cfg, g, AddLink(user, device), lucks) ==
            (WithLink(g, cfg.hash(lucks[0].drawn),
                      MagicToken(Some(user), device, Unix(lucks[0].now + cfg.magicTtl), None)),
             Done(LinkSent))
  {
    AloneTwice(cfg, g, AddLink(user, device), lucks);
  }

  /** A link works exactly while it is unused and not expired; it is used up even if the session it was for can no
      longer be approved. Without a session it signs its user in. */
  lemma FollowOutcome(cfg: Config, g: Grants, token: string, lucks: seq<Luck>)
    requires |lucks| >= 2 && AllUp(lucks) && cfg.hash(lucks[1].drawn) !in g.apiTokens
    requires cfg.hash(token) in g.magic ==> g.magic[cfg.hash(token)].userId.Some?
    ensures var h, now := cfg.hash(token), Unix(lucks[0].now);
            if h !in g.magic || g.magic[h].usedAt.Some? || g.magic[h].expiresAt < now
            then Alone(cfg, g, FollowLink(token), lucks) == (g, Done(NotConsumed))
            else if g.magic[h].deviceCodeHash.None? then
              Alone(cfg, g, FollowLink(token), lucks) ==
              (Issued(cfg, UsedAt(g, h, now), lucks[1].drawn, g.magic[h].userId.value, None, "magic-link", "all",
                      Unix(lucks[1].now)),
               Done(LoggedIn(lucks[1].drawn, g.magic[h].userId.value)))
            else if !Waits(g, g.magic[h].deviceCodeHash.value, Unix(lucks[1].now)) then
              Alone(cfg, g, FollowLink(token), lucks) == (UsedAt(g, h, now), Done(Broken))
            else CanApprove(g, h, now, Unix(lucks[1].now))
  {
    AloneStep(cfg, g, FollowLink(token), lucks);
    if cfg.hash(token) in g.magic && Usable(g.magic[cfg.hash(token)], Unix(lucks[0].now)) {
      AloneTwice(cfg, g, FollowLink(token), lucks);
    }
  }

  function UsedAt(g: Grants, h: string, now: int): Grants
    requires h in g.magic
  {
    WithLink(g, h, g.magic[h].(usedAt := Some(now)))
  }

  /** The session waits for approval. */
  predicate Waits(g: Grants, h: string, now: int) {
    h in g.sessions && g.sessions[h].status == Pending && g.sessions[h].expiresAt >= now
  }

  /** The link is good at one reading of the clock, and its session waits for approval at the next. */
  predicate CanApprove(g: Grants, h: string, now: int, next: int) {
    && h in g.magic && g.magic[h].usedAt.None? && g.magic[h].expiresAt >= now && g.magic[h].userId.Some?
    && g.magic[h].deviceCodeHash.Some? && Waits(g, g.magic[h].deviceCodeHash.value, next)
  }

  /** The tables after such a link has been followed and its session approved. */
  function ApprovedThrough(g: Grants, h: string, now: int, next: int): Grants
    requires CanApprove(g, h, now, next)
  {
    var d := g.magic[h].deviceCodeHash.value;
    WithSession(UsedAt(g, h, now), d,
                g.sessions[d].(status := Approved, userId := g.magic[h].userId, approvedAt := Some(next)))
  }

  /** A link for a session that waits for approval approves it for the link's user, signs that user in and provisions
      the session's node, if it has one. */
  lemma ApprovingLinkOutcome(cfg: Config, g: Grants, token: string, lucks: seq<Luck>)
    requires |lucks| >= 8 && AllUp(lucks) && TwoFresh(cfg, g, lucks[2].drawn, lucks[4].drawn)
    requires CanApprove(g, cfg.hash(token), Unix(lucks[0].now), Unix(lucks[1].now))
    requires var node := g.sessions[g.magic[cfg.hash(token)].deviceCodeHash.value].nodeId;
             node.Some? ==> node.value in g.nodes
    ensures var link := g.magic[cfg.hash(token)];
            var approved := ApprovedThrough(g, cfg.hash(token), Unix(lucks[0].now), Unix(lucks[1].now));
            Alone(cfg, g, FollowLink(token), lucks) ==
            SignedIn(cfg, approved, link.deviceCodeHash.value, link.userId.value, lucks[2..])
  {
    var h := cfg.hash(token);
    var approved := ApprovedThrough(g, h, Unix(lucks[0].now), Unix(lucks[1].now));
    ApprovalOutcome(cfg, g, token, lucks);
    ApprovedOutcome(cfg, approved, g.magic[h].deviceCodeHash.value, g.magic[h].userId.value, lucks[2..]);
  }

  /** An approved session's user is signed in, and its node, if it has one, provisioned. */
  function SignedIn(cfg: Config, g: Grants, d: string, user: string, lucks: seq<Luck>): (Grants, Task)
    requires |lucks| >= 6 && d in g.sessions && (g.sessions[d].nodeId.Some? ==> g.sessions[d].nodeId.value in g.nodes)
  {
    var issued := Issued(cfg, g, lucks[0].drawn, user, None, "magic-link", "all", Unix(lucks[0].now));
    match g.sessions[d].nodeId
    case None => (issued, Done(DeviceApproved(lucks[0].drawn, user, None)))
    case Some(n) =>
      (Keyed(cfg, issued, n, user, lucks[2].drawn, lucks[5].drawn, Unix(lucks[2].now)),
       Done(DeviceApproved(lucks[0].drawn, user, Some(NodeKeys(lucks[2].drawn, n, lucks[5].drawn)))))
  }

  lemma UsedOutcome(cfg: Config, g: Grants, token: string, next: int, lucks: seq<Luck>)
    requires |lucks| >= 1 && AllUp(lucks) && CanApprove(g, cfg.hash(token), Unix(lucks[0].now), next)
    ensures var link := g.magic[cfg.hash(token)];
            Alone(cfg, g, FollowLink(token), lucks) ==
            Alone(cfg, UsedAt(g, cfg.hash(token), Unix(lucks[0].now)),
                  ApproveByLink(link.deviceCodeHash.value, link.userId.value), lucks[1..])
  {
    AloneStep(cfg, g, FollowLink(token), lucks);
  }

  lemma WaitingOutcome(cfg: Config, g: Grants, d: string, user: string, lucks: seq<Luck>)
    requires |lucks| >= 1 && AllUp(lucks) && Waits(g, d, Unix(lucks[0].now))
    ensures Alone(cfg, g, ApproveByLink(d, user), lucks) ==
            Alone(cfg, WithSession(g, d, g.sessions[d].(status := Approved, userId := Some(user),
                                                        approvedAt := Some(Unix(lucks[0].now)))),
                  AddApprovalToken(d, user), lucks[1..])
  {
    AloneStep(cfg, g, ApproveByLink(d, user), lucks);
  }

  lemma ApprovalOutcome(cfg: Config, g: Grants, token: string, lucks: seq<Luck>)
    requires |lucks| >= 2 && AllUp(lucks)
    requires CanApprove(g, cfg.hash(token), Unix(lucks[0].now), Unix(lucks[1].now))
    ensures var link := g.magic[cfg.hash(token)];
            Alone(cfg, g, FollowLink(token), lucks) ==
            Alone(cfg, ApprovedThrough(g, cfg.hash(token), Unix(lucks[0].now), Unix(lucks[1].now)),
                  AddApprovalToken(link.deviceCodeHash.value, link.userId.value), lucks[2..])
  {
    var link := g.magic[cfg.hash(token)];
    UsedOutcome(cfg, g, token, Unix(lucks[1].now), lucks);
    WaitingOutcome(cfg, UsedAt(g, cfg.hash(token), Unix(lucks[0].now)), link.deviceCodeHash.value, link.userId.value,
                   lucks[1..]);
    assert lucks[1..][1..] == lucks[2..];
  }

  lemma SignInOutcome(cfg: Config, g: Grants, d: string, user: string, lucks: seq<Luck>)
    requires |lucks| >= 1 && AllUp(lucks) && cfg.hash(lucks[0].drawn) !in g.apiTokens
    ensures Alone(cfg, g, AddApprovalToken(d, user), lucks) ==
            Alone(cfg, Issued(cfg, g, lucks[0].drawn, user, None, "magic-link", "all", Unix(lucks[0].now)),
                  ReadApproval(d, user, lucks[0].drawn), lucks[1..])
  {
    AloneStep(cfg, g, AddApprovalToken(d, user), lucks);
  }

  lemma ReadOutcome(cfg: Config, g: Grants, d: string, user: string, userToken: string, lucks: seq<Luck>)
    requires |lucks| >= 1 && AllUp(lucks) && d in g.sessions
    ensures Alone(cfg, g, ReadApproval(d, user, userToken), lucks) ==
            if g.sessions[d].nodeId.None? then (g, Done(DeviceApproved(userToken, user, None)))
            else Alone(cfg, g, AddNodeToken(d, g.sessions[d].nodeId.value, user, ByLink(userToken)), lucks[1..])
  {
    AloneStep(cfg, g, ReadApproval(d, user, userToken), lucks);
  }

  lemma ApprovedOutcome(cfg: Config, g: Grants, d: string, user: string, lucks: seq<Luck>)
    requires |lucks| >= 6 && AllUp(lucks) && TwoFresh(cfg, g, lucks[0].drawn, lucks[2].drawn)
    requires d in g.sessions && (g.sessions[d].nodeId.Some? ==> g.sessions[d].nodeId.value in g.nodes)
    ensures Alone(cfg, g, AddApprovalToken(d, user), lucks) == SignedIn(cfg, g, d, user, lucks)
  {
    var issued := Issued(cfg, g, lucks[0].drawn, user, None, "magic-link", "all", Unix(lucks[0].now));
    SignInOutcome(cfg, g, d, user, lucks);
    ReadOutcome(cfg, issued, d, user, lucks[0].drawn, lucks[1..]);
    if g.sessions[d].nodeId.Some? {
      assert lucks[1..][1..] == lucks[2..] && lucks[2..][0] == lucks[2] && lucks[2..][3] == lucks[5];
      ProvisionOutcome(cfg, issued, d, g.sessions[d].nodeId.value, user, ByLink(lucks[0].drawn), lucks[2..]);
    }
  }

  // ----- Approval from the browser, and signing out -----

  /** An approval from the browser succeeds exactly on a session that waits for it and has not expired, and changes
      nothing else. */
  lemma WebApprovalOutcome(cfg: Config, g: Grants, userCode: string, user: string, lucks: seq<Luck>)
    requires |lucks| >= 2 && AllUp(lucks) && IsSessionByUserCode(g.sessions, userCode, lucks[0].found)
    ensures var outcome := Alone(cfg, g, StartWebApproval(userCode, user), lucks);
            var now := Unix(lucks[1].now);
            match lucks[0].found
            case None => outcome == (g, Done(Broken))
            case Some(h) =>
              if g.sessions[h].status == Pending && now <= g.sessions[h].expiresAt then
                outcome == (WithSession(g, h, g.sessions[h].(status := Approved, userId := Some(user),
                                                             approvedAt := Some(now))),
                            Done(WebApproved))
              else outcome == (g, Done(Broken))
  {
    AloneTwice(cfg, g, StartWebApproval(userCode, user), lucks);
    AloneStep(cfg, g, StartWebApproval(userCode, user), lucks);
  }

  /** Signing out stamps the token that was presented and nothing else; an unknown one changes nothing. */
  lemma LogoutOutcome(cfg: Config, g: Grants, token: string, lucks: seq<Luck>)
    requires |lucks| >= 1 && AllUp(lucks)
    ensures var h := cfg.hash(token);
            var (g', t) := Alone(cfg, g, Logout(token), lucks);
            && t == Done(LoggedOut) && g' == g.(apiTokens := g'.apiTokens)
            && g'.apiTokens == if h !in g.apiTokens then g.apiTokens
                               else g.apiTokens[h := g.apiTokens[h].(revokedAt := Some(Unix(lucks[0].now)))]
  {
    AloneStep(cfg, g, Logout(token), lucks);
  }

  // ----- A statement that fails -----

  /** A statement that fails writes nothing and ends its request, but for the second read of an approved session, whose
      failure only leaves the node without credentials. */
  lemma FailedStatement(cfg: Config, g: Grants, t: Task, luck: Luck)
    requires !luck.up && !t.Done? && !t.OpenDevice? && !t.JudgePoll? && (t.StartLink? ==> t.userCode != "")
    ensures var (c, t') := Statement(cfg, g, t, luck);
            c == Nothing && t' == Done(if t.ReadApproval? then DeviceApproved(t.userToken, t.user, None) else Broken)
  {
    if t.AddNodeToken? || t.SetTokenHash? || t.SetOwner? || t.SetSecret? {
      FailedProvision(cfg, g, t, luck);
    } else if t.StartPoll? || t.StampPoll? || t.ConsumePoll? || t.AddPollToken? {
      FailedPoll(cfg, g, t, luck);
    }
  }

  lemma FailedProvision(cfg: Config, g: Grants, t: Task, luck: Luck)
    requires !luck.up && (t.AddNodeToken? || t.SetTokenHash? || t.SetOwner? || t.SetSecret?)
    ensures ProvisionStatement(cfg, g, t, luck) == (Nothing, Done(Broken))
  {
  }

  lemma FailedPoll(cfg: Config, g: Grants, t: Task, luck: Luck)
    requires !luck.up && (t.StartPoll? || t.StampPoll? || t.ConsumePoll? || t.AddPollToken?)
    ensures PollStatement(cfg, g, t, luck) == (Nothing, Done(Broken))
  {
  }
}
