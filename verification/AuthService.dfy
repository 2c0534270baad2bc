/** The sign-in and device-grant service. Each method runs the statements of one request in order; what
    other requests may do in between is the machine's matter. `lucks` holds one entry per statement. */
module AuthService {
  import opened Basics
  import opened Schema
  import opened GrantMachine
  import opened GrantOverlap
  import Nodes
  import Devices
  import Tokens

  const ENOUGH: nat := 9

  class Service {
    const db: Database
    const cfg: Config

    constructor (db: Database, cfg: Config)
      ensures this.db == db && this.cfg == cfg
    {
      this.db, this.cfg := db, cfg;
    }

    method InitiateDeviceFlow(nodeType: string, endpoint: string, key: bytes, lucks: seq<Luck>) returns (a: Answer)
      requires |lucks| >= ENOUGH
      modifies db`nodes, db`sessions
      ensures (db.GrantTables(), Done(a)) ==
              Alone(cfg, old(db.GrantTables()), OpenDevice(nodeType, endpoint, key), lucks)
    {
      a := Devices.InsertDeviceSession(db, cfg, nodeType, endpoint, key, lucks);
    }

    /** `found` is what the lookup of the user code answered. */
    method RequestMagicLink(email: string, userCode: string, lucks: seq<Luck>)
      returns (a: Answer, ghost found: Option<string>)
      requires |lucks| >= ENOUGH
      modifies db`users, db`magic
      ensures IsSessionByUserCode(db.sessions, userCode, found)
      ensures (db.GrantTables(), Done(a)) ==
              Alone(cfg, old(db.GrantTables()), StartLink(email, userCode), lucks[0 := lucks[0].(found := found)])
    {
      var session := Devices.DeviceSessionByUserCode(db, userCode);
      found := session;
      AloneStep(cfg, db.GrantTables(), StartLink(email, userCode), lucks[0 := lucks[0].(found := found)]);
      if userCode == "" {
        session := None;
      } else if !lucks[0].up {
        return Broken, found;
      }
      assert lucks[0 := lucks[0].(found := found)][1..] == lucks[1..];
      a := IssueLink(email, session, lucks[1..]);
    }

    method IssueLink(email: string, device: Option<string>, lucks: seq<Luck>) returns (a: Answer)
      requires |lucks| >= 3
      modifies db`users, db`magic
      ensures (db.GrantTables(), Done(a)) == Alone(cfg, old(db.GrantTables()), AddLinkUser(email, device), lucks)
    {
      AloneStep(cfg, db.GrantTables(), AddLinkUser(email, device), lucks);
      var user := Tokens.CreateUser(db, email, lucks[0].drawn, lucks[0].up);
      if user.None? { return Broken; }
      a := SendLink(user.value, device, lucks[1..]);
    }

    method SendLink(user: string, device: Option<string>, lucks: seq<Luck>) returns (a: Answer)
      requires |lucks| >= 2
      modifies db`magic
      ensures (db.GrantTables(), Done(a)) == Alone(cfg, old(db.GrantTables()), AddLink(user, device), lucks)
    {
      AloneStep(cfg, db.GrantTables(), AddLink(user, device), lucks);
      var ok := Tokens.InsertMagicToken(db, cfg.hash(lucks[0].drawn), user, device, Unix(lucks[0].now + cfg.magicTtl),
                                        lucks[0].up);
      if !ok { return Broken; }
      AloneStep(cfg, db.GrantTables(), MailLink, lucks[1..]);
      if !lucks[1].up { return Broken; }  // the mailer
      return LinkSent;
    }

    method VerifyMagicCallback(token: string, lucks: seq<Luck>) returns (a: Answer)
      requires |lucks| >= ENOUGH
      modifies db`magic, db`sessions, db`apiTokens, db`nodes
      ensures (db.GrantTables(), Done(a)) == Alone(cfg, old(db.GrantTables()), FollowLink(token), lucks)
    {
      AloneStep(cfg, db.GrantTables(), FollowLink(token), lucks);
      if !lucks[0].up { return Broken; }
      var link := Tokens.ConsumeMagicToken(db, cfg.hash(token), Unix(lucks[0].now));
      if link.None? { return NotConsumed; }
      if link.value.userId.None? {
        return if link.value.deviceCodeHash.Some? then PendingDevice else LoggedIn("", "");
      }
      var user := link.value.userId.value;
      if link.value.deviceCodeHash.Some? {
        a := ApproveDevice(link.value.deviceCodeHash.value, user, lucks[1..]);
        return;
      }
      AloneStep(cfg, db.GrantTables(), AddLoginToken(user), lucks[1..]);
      var ok := Tokens.CreateApiToken(db, cfg.hash(lucks[1].drawn), user, None, "magic-link", "all",
                                      Unix(lucks[1].now), lucks[1].up);
      if !ok { return Broken; }
      return LoggedIn(lucks[1].drawn, user);
    }

    method ApproveDevice(codeHash: string, user: string, lucks: seq<Luck>) returns (a: Answer)
      requires |lucks| >= 7
      modifies db`sessions, db`apiTokens, db`nodes
      ensures (db.GrantTables(), Done(a)) == Alone(cfg, old(db.GrantTables()), ApproveByLink(codeHash, user), lucks)
    {
      AloneStep(cfg, db.GrantTables(), ApproveByLink(codeHash, user), lucks);
      var ok := Devices.ApproveDeviceSession(db, codeHash, user, Unix(lucks[0].now), lucks[0].up);
      if !ok { return Broken; }
      a := AfterApproval(codeHash, user, lucks[1..]);
    }

    method AfterApproval(codeHash: string, user: string, lucks: seq<Luck>) returns (a: Answer)
      requires |lucks| >= 6
      modifies db`apiTokens, db`nodes
      ensures (db.GrantTables(), Done(a)) == Alone(cfg, old(db.GrantTables()), AddApprovalToken(codeHash, user), lucks)
    {
      AloneStep(cfg, db.GrantTables(), AddApprovalToken(codeHash, user), lucks);
      var userToken := lucks[0].drawn;
      var ok := Tokens.CreateApiToken(db, cfg.hash(userToken), user, None, "magic-link", "all", Unix(lucks[0].now),
                                      lucks[0].up);
      if !ok { return Broken; }
      AloneStep(cfg, db.GrantTables(), ReadApproval(codeHash, user, userToken), lucks[1..]);
      assert lucks[1..][1..] == lucks[2..];
      if !lucks[1].up || codeHash !in db.sessions || db.sessions[codeHash].nodeId.None? {
        return DeviceApproved(userToken, user, None);
      }
      a := Provision(codeHash, db.sessions[codeHash].nodeId.value, user, ByLink(userToken), lucks[2..]);
    }

    /** The writes shared by approval and by the successful poll. */
    method Provision(codeHash: string, node: string, user: string, end: Ending, lucks: seq<Luck>) returns (a: Answer)
      requires |lucks| >= 4
      modifies db`apiTokens, db`nodes
      ensures (db.GrantTables(), Done(a)) ==
              Alone(cfg, old(db.GrantTables()), AddNodeToken(codeHash, node, user, end), lucks)
    {
      AloneStep(cfg, db.GrantTables(), AddNodeToken(codeHash, node, user, end), lucks);
      ghost var change := Statement(cfg, db.GrantTables(), AddNodeToken(codeHash, node, user, end), lucks[0]).0;
      var nodeToken := lucks[0].drawn;
      var ok := Tokens.CreateApiToken(db, cfg.hash(nodeToken), user, Some(node), "device-node", "node:push",
                                      Unix(lucks[0].now), lucks[0].up);
      assert db.GrantTables() == Apply(old(db.GrantTables()), change);
      if !ok { return Broken; }
      a := Credentials(codeHash, node, user, nodeToken, end, lucks[1..]);
    }

    method Credentials(codeHash: string, node: string, user: string, nodeToken: string, end: Ending, lucks: seq<Luck>)
      returns (a: Answer)
      requires |lucks| >= 3
      modifies db`nodes
      ensures (db.GrantTables(), Done(a)) ==
              Alone(cfg, old(db.GrantTables()), SetTokenHash(codeHash, node, user, nodeToken, end), lucks)
    {
      AloneStep(cfg, db.GrantTables(), SetTokenHash(codeHash, node, user, nodeToken, end), lucks);
      if !lucks[0].up { return Broken; }
      Nodes.UpdateNodeToken(db, node, cfg.hash(nodeToken));
      AloneStep(cfg, db.GrantTables(), SetOwner(codeHash, node, user, nodeToken, end), lucks[1..]);
      if !lucks[1].up { return Broken; }
      Nodes.SetNodeUser(db, node, user);
      AloneStep(cfg, db.GrantTables(), SetSecret(codeHash, node, user, nodeToken, end), lucks[1..][1..]);
      if !lucks[2].up { return Broken; }
      Nodes.RotateNodeIntroSecret(db, node, lucks[2].drawn);
      return Handed(end, node, user, nodeToken, lucks[2].drawn);
    }

    /** Approval from the browser by the signed-in `user`. */
    method ApproveFromBrowser(userCode: string, user: string, lucks: seq<Luck>)
      returns (a: Answer, ghost found: Option<string>)
      requires |lucks| >= ENOUGH
      modifies db`sessions
      ensures IsSessionByUserCode(old(db.sessions), userCode, found)
      ensures (db.GrantTables(), Done(a)) ==
              Alone(cfg, old(db.GrantTables()), StartWebApproval(userCode, user), lucks[0 := lucks[0].(found := found)])
    {
      var session := Devices.DeviceSessionByUserCode(db, userCode);
      found := session;
      assert lucks[0 := lucks[0].(found := found)][1..] == lucks[1..];
      AloneStep(cfg, db.GrantTables(), StartWebApproval(userCode, user), lucks[0 := lucks[0].(found := found)]);
      if session.None? || !lucks[0].up { return Broken, found; }
      AloneStep(cfg, db.GrantTables(), ApproveOnWeb(session.value, user), lucks[1..]);
      var ok := Devices.ApproveDeviceSession(db, session.value, user, Unix(lucks[1].now), lucks[1].up);
      a := if ok then WebApproved else Broken;
    }

    method PollToken(code: string, lucks: seq<Luck>) returns (a: Answer)
      requires |lucks| >= ENOUGH
      modifies db`sessions, db`apiTokens, db`nodes
      ensures (db.GrantTables(), Done(a)) == Alone(cfg, old(db.GrantTables()), StartPoll(code), lucks)
    {
      AloneStep(cfg, db.GrantTables(), StartPoll(code), lucks);
      var codeHash := cfg.hash(code);
      if !lucks[0].up { return Broken; }
      if codeHash !in db.sessions { return ExpiredToken; }
      match db.sessions[codeHash].status {
        case Pending => a := HandlePollPending(codeHash, db.sessions[codeHash], lucks[1..]);
        case Approved => a := HandlePollApproved(codeHash, lucks[1..]);
        case Denied => a := AccessDenied;
        case _ => a := ExpiredToken;
      }
    }

    /** `seen` is the row as the lookup read it. */
    method HandlePollPending(codeHash: string, seen: Session, lucks: seq<Luck>) returns (a: Answer)
      requires |lucks| >= 2
      modifies db`sessions
      ensures (db.GrantTables(), Done(a)) == Alone(cfg, old(db.GrantTables()), JudgePoll(codeHash, seen), lucks)
    {
      AloneStep(cfg, db.GrantTables(), JudgePoll(codeHash, seen), lucks);
      var now := Unix(lucks[0].now);
      if seen.expiresAt < now { return ExpiredToken; }
      if seen.lastPollAt.Some? && now - seen.lastPollAt.value < seen.pollInterval {
        return SlowDown(seen.pollInterval + 5);
      }
      AloneStep(cfg, db.GrantTables(), StampPoll(codeHash, seen.pollInterval), lucks[1..]);
      var ok := Devices.UpdateLastPoll(db, codeHash, Unix(lucks[1].now), lucks[1].up);
      if !ok { return Broken; }
      return AuthorizationPending(seen.pollInterval);
    }

    /** Whatever has happened to the session since the lookup read it as approved. */
    method HandlePollApproved(codeHash: string, lucks: seq<Luck>) returns (a: Answer)
      requires |lucks| >= 6
      modifies db`sessions, db`apiTokens, db`nodes
      ensures (db.GrantTables(), Done(a)) == Alone(cfg, old(db.GrantTables()), ConsumePoll(codeHash), lucks)
    {
      AloneStep(cfg, db.GrantTables(), ConsumePoll(codeHash), lucks);
      var row := Devices.ConsumeDeviceSession(db, codeHash, Unix(lucks[0].now), lucks[0].up);
      if row.None? { return Broken; }
      assert db.sessions == old(db.sessions)[codeHash := row.value];
      if row.value.userId.None? { return ExpiredToken; }
      a := IssueTokens(codeHash, row.value.userId.value, row.value.nodeId, lucks[1..]);
    }

    method IssueTokens(codeHash: string, user: string, node: Option<string>, lucks: seq<Luck>) returns (a: Answer)
      requires |lucks| >= 5
      modifies db`apiTokens, db`nodes
      ensures (db.GrantTables(), Done(a)) ==
              Alone(cfg, old(db.GrantTables()), AddPollToken(codeHash, user, node), lucks)
    {
      AloneStep(cfg, db.GrantTables(), AddPollToken(codeHash, user, node), lucks);
      ghost var change := Statement(cfg, db.GrantTables(), AddPollToken(codeHash, user, node), lucks[0]).0;
      var ok := Tokens.CreateApiToken(db, cfg.hash(lucks[0].drawn), user, None, "device-flow", "all",
                                      Unix(lucks[0].now), lucks[0].up);
      assert db.GrantTables() == Apply(old(db.GrantTables()), change);
      if !ok { return Broken; }
      if node.None? {
        return Granted(lucks[0].drawn, None, "all", None);
      }
      a := Provision(codeHash, node.value, user, ByPoll, lucks[1..]);
    }
  }

  // ----- An uninterrupted request is a run of the machine -----

  /** The lucks fit: time does not run backwards and lookups answer what the table holds. */
  ghost predicate Fits(cfg: Config, g: Grants, clock: int, t: Task, lucks: seq<Luck>)
    decreases |lucks|
  {
    t.Done? || lucks == []
    || (&& clock <= lucks[0].now && FoundIs(g, t, lucks[0].found)
        && Fits(cfg, Apply(g, Statement(cfg, g, t, lucks[0]).0), lucks[0].now, Statement(cfg, g, t, lucks[0]).1,
                lucks[1..]))
  }

  /** What the methods above do is something the machine can do: a request that runs its statements without
      interruption leads to the tables and the task that `Alone` gives. */
  lemma {:induction false} Uninterrupted(cfg: Config, s0: Site, s: Site, i: nat, lucks: seq<Luck>) returns (s': Site)
    requires Reaches(cfg, s0, s) && i < |s.jobs| && Fits(cfg, s.g, s.clock, s.jobs[i].at, lucks)
    ensures Reaches(cfg, s0, s') && |s'.jobs| == |s.jobs|
    ensures (s'.g, s'.jobs[i].at) == Alone(cfg, s.g, s.jobs[i].at, lucks)
    ensures forall j :: 0 <= j < |s.jobs| && j != i ==> s'.jobs[j] == s.jobs[j]
    decreases |lucks|
  {
    if s.jobs[i].at.Done? || lucks == [] {
      s' := s;
    } else {
      var m := Next(cfg, s, Run(i, lucks[0]));
      ReachesNext(cfg, s0, s, Run(i, lucks[0]));
      s' := Uninterrupted(cfg, s0, m, i, lucks[1..]);
    }
  }
}
