/** What overlapping requests can do to the single use of a device code and to the secret handed out. */
module GrantOverlap {
  import opened Basics
  import opened Schema
  import opened GrantMachine
  import opened GrantTheorems
  import opened GrantPolls

  // ----- Two grants need two polls that overlap -----

  /** The step that brought a poll to its place in the chain. */
  lemma ChainCameTo(cfg: Config, ss: seq<Site>, steps: seq<Step>, n: nat, i: nat, h: string) returns (k: nat)
    requires IsTrace(cfg, ss, steps) && Initial(ss[0]) && n < |ss| && i < |ss[n].jobs| && InChain(cfg, ss[n].jobs[i], h)
    ensures k < n && Runs(steps, k, i) && i < |ss[k].jobs| && !ss[k].jobs[i].at.Done?
    ensures forall m :: k < m <= n ==> i < |ss[m].jobs| && ss[m].jobs[i] == ss[n].jobs[i]
    ensures if ss[n].jobs[i].at.ConsumePoll? then ReadsApproved(cfg, ss, steps, k, i, h)
            else InChain(cfg, ss[k].jobs[i], h) && (ss[k].jobs[i].at.ConsumePoll? ==> SessionConsumed(ss[k + 1].g, h))
  {
    k := CameTo(cfg, ss, steps, n, i);
    Reachable(cfg, ss, steps, k);
    assert JobOk(cfg, ss[k].g, Unix(ss[k].clock), ss[k].jobs[i]);
    StartsAlike(cfg, ss, steps, k, i);
    ChainBack(cfg, ss[k].g, Unix(ss[k].clock), ss[k].jobs[i], steps[k].luck, h);
    TablesAfterRun(cfg, ss, steps, k, i);
  }

  lemma StartsAlike(cfg: Config, ss: seq<Site>, steps: seq<Step>, k: nat, i: nat)
    requires IsTrace(cfg, ss, steps) && k < |steps| && i < |ss[k].jobs| && i < |ss[k + 1].jobs|
    ensures ss[k + 1].jobs[i].start == ss[k].jobs[i].start
  {
    assert StepAt(cfg, ss, steps, k);
    JobsStay(cfg, ss[k], steps[k], i);
  }

  lemma TablesAfterRun(cfg: Config, ss: seq<Site>, steps: seq<Step>, k: nat, i: nat)
    requires IsTrace(cfg, ss, steps) && Runs(steps, k, i) && i < |ss[k].jobs|
    ensures ss[k + 1].g == Apply(ss[k].g, Statement(cfg, ss[k].g, ss[k].jobs[i].at, steps[k].luck).0)
  {
    assert StepAt(cfg, ss, steps, k);
  }

  /** Where a poll in the chain was before its last statement. */
  lemma ChainBack(cfg: Config, g: Grants, now: int, job: Job, luck: Luck, h: string)
    requires SessionsOk(g, now) && JobOk(cfg, g, now, job) && !job.at.Done?
    requires InChain(cfg, Job(job.start, Statement(cfg, g, job.at, luck).1), h)
    ensures var (c, t) := Statement(cfg, g, job.at, luck);
            if t.ConsumePoll?
            then job.at.StartPoll? && cfg.hash(job.at.code) == h && luck.up
                 && h in g.sessions && g.sessions[h].status == Approved
            else InChain(cfg, job, h) && (job.at.ConsumePoll? ==> SessionConsumed(Apply(g, c), h))
  {
    ChainStatement(cfg, g, now, job, luck, h);
    if job.at.ConsumePoll? {
      assert SessionOk(g.sessions[h], now);
    }
  }

  /** A poll past its consumption looked its session up while that read `approved` (step `r`), consumed it
      (step `c`) and did nothing in between. */
  lemma {:induction false} ChainHistory(cfg: Config, ss: seq<Site>, steps: seq<Step>, n: nat, i: nat, h: string)
    returns (r: nat, c: nat)
    requires IsTrace(cfg, ss, steps) && Initial(ss[0]) && n < |ss| && i < |ss[n].jobs|
    requires InChain(cfg, ss[n].jobs[i], h) && !ss[n].jobs[i].at.ConsumePoll?
    ensures r < c < n && ReadsApproved(cfg, ss, steps, r, i, h) && Runs(steps, c, i) && SessionConsumed(ss[c + 1].g, h)
    ensures forall m :: r < m <= c ==>
              i < |ss[m].jobs| && ss[m].jobs[i].at.ConsumePoll? && InChain(cfg, ss[m].jobs[i], h)
  {
    var k := ChainCameTo(cfg, ss, steps, n, i, h);
    if ss[k].jobs[i].at.ConsumePoll? {
      c := k;
      r := ChainCameTo(cfg, ss, steps, c, i, h);
    } else {
      r, c := ChainHistory(cfg, ss, steps, k, i, h);
    }
  }

  lemma NoReadAfterConsumption(cfg: Config, ss: seq<Site>, steps: seq<Step>, c: nat, r: nat, i: nat, h: string)
    requires IsTrace(cfg, ss, steps) && Initial(ss[0]) && c + 1 < |ss| && SessionConsumed(ss[c + 1].g, h)
    requires ReadsApproved(cfg, ss, steps, r, i, h)
    ensures r <= c
  {
    if r > c {
      SessionEvolves(cfg, ss, steps, c + 1, r, h);
    }
  }

  /** If two requests are granted one code, then at some time both had read the session as approved and
      neither had consumed it. */
  lemma TwoGrantsMeet(cfg: Config, ss: seq<Site>, steps: seq<Step>, n: nat, i: nat, j: nat, h: string)
    returns (m: nat)
    requires IsTrace(cfg, ss, steps) && Initial(ss[0]) && n < |ss| && i < |ss[n].jobs| && j < |ss[n].jobs| && i != j
    requires GrantedTo(cfg, ss[n].jobs[i], h) && GrantedTo(cfg, ss[n].jobs[j], h)
    ensures m < n && i < |ss[m].jobs| && j < |ss[m].jobs|
    ensures ss[m].jobs[i].at.ConsumePoll? && InChain(cfg, ss[m].jobs[i], h)
    ensures ss[m].jobs[j].at.ConsumePoll? && InChain(cfg, ss[m].jobs[j], h)
  {
    var r, c := ChainHistory(cfg, ss, steps, n, i, h);
    var r', c' := ChainHistory(cfg, ss, steps, n, j, h);
    NoReadAfterConsumption(cfg, ss, steps, c, r', j, h);
    NoReadAfterConsumption(cfg, ss, steps, c', r, i, h);
    m := if r < r' then r' + 1 else r + 1;
  }

  /** No two polls are between reading the session as approved and consuming it at the same time. */
  ghost predicate ConsumesApart(cfg: Config, ss: seq<Site>, h: string) {
    forall m, i, j ::
      (0 <= m < |ss| && 0 <= i < |ss[m].jobs| && 0 <= j < |ss[m].jobs|
       && ss[m].jobs[i].at.ConsumePoll? && InChain(cfg, ss[m].jobs[i], h)
       && ss[m].jobs[j].at.ConsumePoll? && InChain(cfg, ss[m].jobs[j], h)) ==> i == j
  }

  /** Unless two of its polls overlap between reading `approved` and consuming, at most one request is ever
      granted a code, and only after an approval made no later than the code's expiry. */
  lemma OneSuccessPerCode(cfg: Config, ss: seq<Site>, steps: seq<Step>, n: nat, i: nat, j: nat, h: string)
    requires IsTrace(cfg, ss, steps) && Initial(ss[0]) && n < |ss| && i < |ss[n].jobs| && j < |ss[n].jobs|
    requires GrantedTo(cfg, ss[n].jobs[i], h) && GrantedTo(cfg, ss[n].jobs[j], h)
    ensures ConsumesApart(cfg, ss, h) ==> i == j
    ensures h in ss[n].g.sessions
    ensures var s := ss[n].g.sessions[h];
            s.status == Consumed && s.approvedAt.Some? && s.approvedAt.value <= s.expiresAt
  {
    var r, c := ChainHistory(cfg, ss, steps, n, i, h);
    SessionEvolves(cfg, ss, steps, c + 1, n, h);
    Reachable(cfg, ss, steps, n);
    assert SessionOk(ss[n].g.sessions[h], Unix(ss[n].clock));
    if i != j {
      var m := TwoGrantsMeet(cfg, ss, steps, n, i, j, h);
    }
  }

  // ----- Runs from a state -----

  ghost predicate Reaches(cfg: Config, s: Site, s': Site) {
    exists ss, steps :: RunBetween(cfg, s, s', ss, steps)
  }

  ghost predicate RunBetween(cfg: Config, s: Site, s': Site, ss: seq<Site>, steps: seq<Step>) {
    IsTrace(cfg, ss, steps) && ss[0] == s && ss[|steps|] == s'
  }

  lemma ReachesItself(cfg: Config, s: Site)
    ensures Reaches(cfg, s, s)
  {
    assert RunBetween(cfg, s, s, [s], []);
  }

  lemma ReachesNext(cfg: Config, s: Site, m: Site, step: Step)
    requires Reaches(cfg, s, m) && Enabled(m, step)
    ensures Reaches(cfg, s, Next(cfg, m, step))
  {
    var ss, steps :| RunBetween(cfg, s, m, ss, steps);
    var ss', steps' := ss + [Next(cfg, m, step)], steps + [step];
    forall i | 0 <= i < |steps'|
      ensures StepAt(cfg, ss', steps', i)
    {
      if i < |steps| {
        assert StepAt(cfg, ss, steps, i);
      }
    }
    assert RunBetween(cfg, s, Next(cfg, m, step), ss', steps');
  }

  lemma ReachesOk(cfg: Config, s: Site, s': Site)
    requires Inv(cfg, s) && Reaches(cfg, s, s')
    ensures Inv(cfg, s')
  {
    var ss, steps :| RunBetween(cfg, s, s', ss, steps);
    Reachable(cfg, ss, steps, |steps|);
  }

  /** The digest takes more values than any table can hold. */
  ghost predicate Unbounded(cfg: Config) {
    forall used: set<string> :: HasFresh(cfg, used)
  }

  ghost predicate HasFresh(cfg: Config, used: set<string>) {
    exists x :: IsFresh(cfg, used, x)
  }

  predicate IsFresh(cfg: Config, used: set<string>, x: string) {
    cfg.hash(x) !in used
  }

  // ----- Requests that will provision a session's node -----

  /** The request will rotate the secret of the node of session `h`, if there is one and nothing fails. */
  predicate Committed(t: Task, h: string) {
    (t.AddApprovalToken? || t.ReadApproval? || t.ConsumePoll? || t.AddPollToken? || Provisions(t)) && t.h == h
  }

  function Left(t: Task): nat {
    match t
    case AddApprovalToken(_, _) => 6
    case ReadApproval(_, _, _) => 5
    case ConsumePoll(_) => 6
    case AddPollToken(_, _, _) => 5
    case AddNodeToken(_, _, _, _) => 4
    case SetTokenHash(_, _, _, _, _) => 3
    case SetOwner(_, _, _, _, _) => 2
    case SetSecret(_, _, _, _, _) => 1
    case _ => 0
  }

  /** The request is over, has given its session's node the secret, and was granted the code if it polled. */
  predicate Finished(cfg: Config, g: Grants, was: Job, job: Job, h: string, secret: string) {
    && job.start == was.start && job.at.Done? && h in g.sessions
    && (g.sessions[h].nodeId.Some? ==>
          var n := g.sessions[h].nodeId.value;
          n in g.nodes && g.nodes[n].introSecret == Some(secret))
    && (InChain(cfg, was, h) ==>
          && GrantedTo(cfg, job, h) && SessionConsumed(g, h)
          && job.at.answer.nodeId == g.sessions[h].nodeId
          && (g.sessions[h].nodeId.Some? ==> job.at.answer.introSecret == Some(secret)))
  }

  /** A statement of a committed request that succeeds, with the values drawn for it. */
  lemma GoodLuck(cfg: Config, s: Site, i: nat, h: string, secret: string) returns (luck: Luck)
    requires Unbounded(cfg) && Inv(cfg, s) && i < |s.jobs| && Committed(s.jobs[i].at, h)
    ensures luck.now == s.clock && luck.up && Enabled(s, Run(i, luck))
    ensures s.jobs[i].at.SetSecret? ==> luck.drawn == secret
    ensures !s.jobs[i].at.SetSecret? ==> IsFresh(cfg, s.g.apiTokens.Keys, luck.drawn)
  {
    assert HasFresh(cfg, s.g.apiTokens.Keys);
    var x :| IsFresh(cfg, s.g.apiTokens.Keys, x);
    luck := Luck(s.clock, true, if s.jobs[i].at.SetSecret? then secret else x, "", None);
  }

  /** What a statement of a committed request leads to. */
  ghost predicate GoesOn(cfg: Config, g: Grants, job: Job, luck: Luck, h: string, secret: string) {
    var (c, t) := Statement(cfg, g, job.at, luck);
    var job' := Job(job.start, t);
    && (Committed(t, h) || t.Done?)
    && (Committed(t, h) ==> Left(t) < Left(job.at) && (InChain(cfg, job, h) ==> InChain(cfg, job', h)))
    && (t.Done? ==> Finished(cfg, Apply(g, c), job, job', h, secret))
  }

  lemma CommittedProvision(cfg: Config, g: Grants, now: int, job: Job, luck: Luck, h: string, secret: string)
    requires Links(g) && JobOk(cfg, g, now, job) && Provisions(job.at) && job.at.h == h && luck.up
    requires if job.at.SetSecret? then luck.drawn == secret else IsFresh(cfg, g.apiTokens.Keys, luck.drawn)
    ensures GoesOn(cfg, g, job, luck, h, secret)
  {
    if job.at.SetSecret? {
      CommittedSecret(cfg, g, now, job, luck, h);
    }
  }

  lemma CommittedSecret(cfg: Config, g: Grants, now: int, job: Job, luck: Luck, h: string)
    requires Links(g) && JobOk(cfg, g, now, job) && job.at.SetSecret? && job.at.h == h && luck.up
    ensures GoesOn(cfg, g, job, luck, h, luck.drawn)
  {
    assert Bound(g, h, job.at.nodeId);
  }

  lemma CommittedPoll(cfg: Config, g: Grants, now: int, job: Job, luck: Luck, h: string, secret: string)
    requires SessionsOk(g, now) && JobOk(cfg, g, now, job) && luck.up && IsFresh(cfg, g.apiTokens.Keys, luck.drawn)
    requires (job.at.ConsumePoll? || job.at.AddPollToken?) && job.at.h == h
    ensures GoesOn(cfg, g, job, luck, h, secret)
  {
    assert SessionOk(g.sessions[h], now);
  }

  lemma CommittedApproval(cfg: Config, g: Grants, now: int, job: Job, luck: Luck, h: string, secret: string)
    requires JobOk(cfg, g, now, job) && luck.up && IsFresh(cfg, g.apiTokens.Keys, luck.drawn)
    requires (job.at.AddApprovalToken? || job.at.ReadApproval?) && job.at.h == h
    ensures GoesOn(cfg, g, job, luck, h, secret)
  {
  }

  lemma CommittedStatement(cfg: Config, g: Grants, now: int, job: Job, luck: Luck, h: string, secret: string)
    requires SessionsOk(g, now) && Links(g) && JobOk(cfg, g, now, job) && Committed(job.at, h) && luck.up
    requires if job.at.SetSecret? then luck.drawn == secret else IsFresh(cfg, g.apiTokens.Keys, luck.drawn)
    ensures GoesOn(cfg, g, job, luck, h, secret)
  {
    if Provisions(job.at) {
      CommittedProvision(cfg, g, now, job, luck, h, secret);
    } else if job.at.ConsumePoll? || job.at.AddPollToken? {
      CommittedPoll(cfg, g, now, job, luck, h, secret);
    } else {
      CommittedApproval(cfg, g, now, job, luck, h, secret);
    }
  }

  /** Only request `i` has moved, and the session kept its node. */
  predicate OnlyMoved(s: Site, s': Site, i: nat, h: string) {
    && |s'.jobs| == |s.jobs| && i < |s.jobs| && s'.clock == s.clock
    && (forall j :: 0 <= j < |s.jobs| && j != i ==> s'.jobs[j] == s.jobs[j])
    && h in s.g.sessions && h in s'.g.sessions && Evolves(s.g.sessions[h], s'.g.sessions[h])
  }

  lemma OnlyMovedIsTransitive(s: Site, m: Site, s': Site, i: nat, h: string)
    requires OnlyMoved(s, m, i, h) && OnlyMoved(m, s', i, h)
    ensures OnlyMoved(s, s', i, h)
  {
  }

  lemma CommittedStep(cfg: Config, s: Site, i: nat, h: string, secret: string) returns (luck: Luck)
    requires Unbounded(cfg) && Inv(cfg, s) && i < |s.jobs| && Committed(s.jobs[i].at, h)
    ensures Enabled(s, Run(i, luck)) && GoesOn(cfg, s.g, s.jobs[i], luck, h, secret)
    ensures var s' := Next(cfg, s, Run(i, luck)); Inv(cfg, s') && OnlyMoved(s, s', i, h)
  {
    luck := GoodLuck(cfg, s, i, h, secret);
    assert JobOk(cfg, s.g, Unix(s.clock), s.jobs[i]);
    CommittedStatement(cfg, s.g, Unix(s.clock), s.jobs[i], luck, h, secret);
    StepKeepsInv(cfg, s, Run(i, luck));
    StepEvolvesSessions(cfg, s, Run(i, luck));
    assert h in s.g.sessions;
  }

  /** From any state a committed request can run to its end and leave the secret drawn for it. */
  lemma {:induction false} Finish(cfg: Config, s0: Site, s: Site, i: nat, h: string, secret: string)
    returns (s': Site)
    requires Unbounded(cfg) && Reaches(cfg, s0, s) && Inv(cfg, s) && i < |s.jobs| && Committed(s.jobs[i].at, h)
    ensures Reaches(cfg, s0, s') && Inv(cfg, s') && OnlyMoved(s, s', i, h)
    ensures Finished(cfg, s'.g, s.jobs[i], s'.jobs[i], h, secret)
    decreases Left(s.jobs[i].at)
  {
    var luck := CommittedStep(cfg, s, i, h, secret);
    var m := Next(cfg, s, Run(i, luck));
    ReachesNext(cfg, s0, s, Run(i, luck));
    if m.jobs[i].at.Done? {
      s' := m;
    } else {
      s' := Finish(cfg, s0, m, i, h, secret);
      OnlyMovedIsTransitive(s, m, s', i, h);
    }
  }

  // ----- When a code can be granted twice -----

  predicate HasSecret(s: Site, n: string, secret: Option<string>) {
    n in s.g.nodes && s.g.nodes[n].introSecret == secret
  }

  ghost predicate TwiceGranted(cfg: Config, s: Site, h: string) {
    exists i, j :: TwoGranted(cfg, s, i, j, h)
  }

  predicate TwoGranted(cfg: Config, s: Site, i: int, j: int, h: string) {
    0 <= i < |s.jobs| && 0 <= j < |s.jobs| && i != j && GrantedTo(cfg, s.jobs[i], h) && GrantedTo(cfg, s.jobs[j], h)
  }

  ghost predicate CanGrantTwice(cfg: Config, s: Site, h: string) {
    exists s' :: Reaches(cfg, s, s') && TwiceGranted(cfg, s', h)
  }

  /** A later poll can still read the session as approved. */
  predicate Open(s: Site, h: string) {
    h in s.g.sessions && (s.g.sessions[h].status == Approved || Approvable(s.g.sessions[h], Unix(s.clock)))
  }

  ghost predicate TwoInChain(cfg: Config, s: Site, h: string) {
    exists i, j :: BothInChain(cfg, s, i, j, h)
  }

  predicate BothInChain(cfg: Config, s: Site, i: int, j: int, h: string) {
    0 <= i < |s.jobs| && 0 <= j < |s.jobs| && i != j && InChain(cfg, s.jobs[i], h) && InChain(cfg, s.jobs[j], h)
  }

  /** Once no poll can read `approved` any more, none can in any later state and no request joins the chain. */
  lemma ClosedStep(cfg: Config, s: Site, step: Step, h: string)
    requires Inv(cfg, s) && Enabled(s, step) && h in s.g.sessions && !Open(s, h)
    ensures h in Next(cfg, s, step).g.sessions && !Open(Next(cfg, s, step), h)
    ensures forall i :: 0 <= i < |Next(cfg, s, step).jobs| && InChain(cfg, Next(cfg, s, step).jobs[i], h) ==>
              i < |s.jobs| && InChain(cfg, s.jobs[i], h)
  {
    ClosedStays(cfg, s, step, h);
    var s' := Next(cfg, s, step);
    forall i | 0 <= i < |s'.jobs| && InChain(cfg, s'.jobs[i], h)
      ensures i < |s.jobs| && InChain(cfg, s.jobs[i], h)
    {
      JobsStay(cfg, s, step, i);
      if step.Run? && step.job == i {
        assert JobOk(cfg, s.g, Unix(s.clock), s.jobs[i]);
        ChainStatement(cfg, s.g, Unix(s.clock), s.jobs[i], step.luck, h);
      }
    }
  }

  /** The tasks whose statement writes a session. */
  predicate WritesSession(t: Task) {
    t.AddDeviceSession? || t.ApproveByLink? || t.ApproveOnWeb? || t.StampPoll? || t.ConsumePoll?
  }

  lemma SessionsStay(cfg: Config, g: Grants, t: Task, luck: Luck)
    requires !WritesSession(t)
    ensures Apply(g, Statement(cfg, g, t, luck).0).sessions == g.sessions
  {
    if !Polls(t) && !Provisions(t) {
    }
  }

  lemma ExpiredStaysPending(cfg: Config, g: Grants, now: int, t: Task, luck: Luck, h: string)
    requires TaskOk(g, now, t) && h in g.sessions && g.sessions[h].status == Pending
    requires g.sessions[h].expiresAt < Unix(luck.now)
    ensures var sessions := Apply(g, Statement(cfg, g, t, luck).0).sessions;
            h in sessions && sessions[h].status == Pending
  {
    if !WritesSession(t) {
      SessionsStay(cfg, g, t, luck);
    }
  }

  lemma ClosedStays(cfg: Config, s: Site, step: Step, h: string)
    requires Inv(cfg, s) && Enabled(s, step) && h in s.g.sessions && !Open(s, h)
    ensures h in Next(cfg, s, step).g.sessions && !Open(Next(cfg, s, step), h)
  {
    UnixMonotone(s.clock, Time(s, step));
    StepEvolvesSessions(cfg, s, step);
    assert SessionOk(s.g.sessions[h], Unix(s.clock));
    if step.Run? && s.g.sessions[h].status == Pending {
      assert JobOk(cfg, s.g, Unix(s.clock), s.jobs[step.job]);
      ExpiredStaysPending(cfg, s.g, Unix(s.clock), s.jobs[step.job].at, step.luck, h);
    }
  }

  lemma {:induction false} ClosedRun(cfg: Config, ss: seq<Site>, steps: seq<Step>, n: nat, h: string)
    requires IsTrace(cfg, ss, steps) && Inv(cfg, ss[0]) && n < |ss| && h in ss[0].g.sessions && !Open(ss[0], h)
    ensures Inv(cfg, ss[n]) && h in ss[n].g.sessions && !Open(ss[n], h)
    ensures forall i :: 0 <= i < |ss[n].jobs| && InChain(cfg, ss[n].jobs[i], h) ==>
              i < |ss[0].jobs| && InChain(cfg, ss[0].jobs[i], h)
  {
    Reachable(cfg, ss, steps, n);
    if n > 0 {
      ClosedRun(cfg, ss, steps, n - 1, h);
      assert StepAt(cfg, ss, steps, n - 1);
      ClosedStep(cfg, ss[n - 1], steps[n - 1], h);
    }
  }

  lemma ClosedGrantsOnce(cfg: Config, s: Site, h: string)
    requires Inv(cfg, s) && h in s.g.sessions && !Open(s, h) && !TwoInChain(cfg, s, h)
    ensures !CanGrantTwice(cfg, s, h)
  {
    forall s' | Reaches(cfg, s, s')
      ensures !TwiceGranted(cfg, s', h)
    {
      var ss, steps :| RunBetween(cfg, s, s', ss, steps);
      ClosedRun(cfg, ss, steps, |steps|, h);
      forall i, j
        ensures !TwoGranted(cfg, s', i, j, h)
      {
        assert !BothInChain(cfg, s, i, j, h);
      }
    }
  }

  lemma ChainIsCommitted(cfg: Config, s: Site, i: nat, h: string)
    requires Inv(cfg, s) && i < |s.jobs| && InChain(cfg, s.jobs[i], h) && !s.jobs[i].at.Done?
    ensures Committed(s.jobs[i].at, h) && h in s.g.sessions
  {
    assert JobOk(cfg, s.g, Unix(s.clock), s.jobs[i]);
  }

  lemma FinishPoll(cfg: Config, s0: Site, s: Site, i: nat, h: string, secret: string) returns (s': Site)
    requires Unbounded(cfg) && Reaches(cfg, s0, s) && Inv(cfg, s) && i < |s.jobs| && InChain(cfg, s.jobs[i], h)
    ensures Reaches(cfg, s0, s') && Inv(cfg, s') && |s'.jobs| == |s.jobs| && GrantedTo(cfg, s'.jobs[i], h)
    ensures forall j :: 0 <= j < |s.jobs| && j != i ==> s'.jobs[j] == s.jobs[j]
    ensures !s.jobs[i].at.Done? ==> Finished(cfg, s'.g, s.jobs[i], s'.jobs[i], h, secret) && OnlyMoved(s, s', i, h)
  {
    if s.jobs[i].at.Done? {
      s' := s;
    } else {
      ChainIsCommitted(cfg, s, i, h);
      s' := Finish(cfg, s0, s, i, h, secret);
    }
  }

  /** Two polls in the chain can both be granted, and the later one leaves its secret. */
  lemma BothFinish(cfg: Config, s0: Site, s: Site, i: nat, j: nat, h: string, first: string, second: string)
    returns (s': Site)
    requires Unbounded(cfg) && Reaches(cfg, s0, s) && Inv(cfg, s) && BothInChain(cfg, s, i, j, h)
    ensures Reaches(cfg, s0, s') && Inv(cfg, s') && |s'.jobs| == |s.jobs| && TwoGranted(cfg, s', i, j, h)
    ensures !s.jobs[i].at.Done? && !s.jobs[j].at.Done? ==>
              && h in s.g.sessions && h in s'.g.sessions && s'.g.sessions[h].nodeId == s.g.sessions[h].nodeId
              && (s.g.sessions[h].nodeId.Some? ==>
                    var n := s.g.sessions[h].nodeId.value;
                    && HasSecret(s', n, Some(second)) && s'.jobs[i].at.answer.nodeId == Some(n)
                    && s'.jobs[i].at.answer.introSecret == Some(first)
                    && s'.jobs[j].at.answer.introSecret == Some(second))
  {
    var m := FinishPoll(cfg, s0, s, i, h, first);
    s' := FinishPoll(cfg, s0, m, j, h, second);
  }

  /** A new request arrives. */
  lemma Begun(cfg: Config, s0: Site, s: Site, start: Task) returns (s': Site)
    requires Reaches(cfg, s0, s) && Starts(start)
    ensures s' == s.(jobs := s.jobs + [Job(start, start)]) && Reaches(cfg, s0, s')
  {
    ReachesNext(cfg, s0, s, Begin(start));
    s' := Next(cfg, s, Begin(start));
  }

  /** One statement of request `i`, which succeeds now. */
  lemma RunNow(cfg: Config, s0: Site, s: Site, i: nat, drawn: string, userCode: string, found: Option<string>)
    returns (s': Site)
    requires Reaches(cfg, s0, s) && i < |s.jobs| && !s.jobs[i].at.Done? && FoundIs(s.g, s.jobs[i].at, found)
    ensures var (c, t) := Statement(cfg, s.g, s.jobs[i].at, Luck(s.clock, true, drawn, userCode, found));
            s' == Site(Apply(s.g, c), s.clock, s.jobs[i := Job(s.jobs[i].start, t)])
    ensures Reaches(cfg, s0, s')
  {
    var step := Run(i, Luck(s.clock, true, drawn, userCode, found));
    ReachesNext(cfg, s0, s, step);
    s' := Next(cfg, s, step);
  }

  /** A new poll that reads the session as approved. */
  lemma NewPoll(cfg: Config, s0: Site, s: Site, code: string) returns (s': Site)
    requires Reaches(cfg, s0, s)
    requires cfg.hash(code) in s.g.sessions && s.g.sessions[cfg.hash(code)].status == Approved
    ensures Reaches(cfg, s0, s') && s'.g == s.g && s'.clock == s.clock
    ensures s'.jobs == s.jobs + [Job(StartPoll(code), ConsumePoll(cfg.hash(code)))]
  {
    var m := Begun(cfg, s0, s, StartPoll(code));
    s' := RunNow(cfg, s0, m, |s.jobs|, "", "", None);
  }

  lemma TwoNewPolls(cfg: Config, s0: Site, s: Site, code: string) returns (s': Site)
    requires Reaches(cfg, s0, s)
    requires cfg.hash(code) in s.g.sessions && s.g.sessions[cfg.hash(code)].status == Approved
    ensures Reaches(cfg, s0, s') && s'.g == s.g && |s'.jobs| == |s.jobs| + 2
    ensures s'.jobs[..|s.jobs|] == s.jobs
    ensures s'.jobs[|s.jobs|] == s'.jobs[|s.jobs| + 1] == Job(StartPoll(code), ConsumePoll(cfg.hash(code)))
  {
    var m := NewPoll(cfg, s0, s, code);
    s' := NewPoll(cfg, s0, m, code);
  }

  /** A browser approval of a session that is pending and unexpired. */
  lemma NewApproval(cfg: Config, s0: Site, s: Site, h: string, user: string) returns (s': Site)
    requires Reaches(cfg, s0, s) && h in s.g.sessions && Approvable(s.g.sessions[h], Unix(s.clock))
    ensures Reaches(cfg, s0, s') && s'.clock == s.clock
    ensures s'.g == s.g.(sessions := s.g.sessions[h := ApprovedSession(s.g.sessions[h], user, Unix(s.clock))])
  {
    var i := |s.jobs|;
    var a := Begun(cfg, s0, s, StartWebApproval(s.g.sessions[h].userCode, user));
    var b := RunNow(cfg, s0, a, i, "", "", Some(h));
    assert b.g == s.g && b.jobs[i].at == ApproveOnWeb(h, user);
    s' := RunNow(cfg, s0, b, i, "", "", None);
  }

  lemma OpenGrantsTwice(cfg: Config, s: Site, code: string)
    requires Unbounded(cfg) && Inv(cfg, s) && Open(s, cfg.hash(code))
    ensures CanGrantTwice(cfg, s, cfg.hash(code))
  {
    var h := cfg.hash(code);
    ReachesItself(cfg, s);
    var a := s;
    if s.g.sessions[h].status != Approved {
      a := NewApproval(cfg, s, s, h, "user");
    }
    var b := TwoNewPolls(cfg, s, a, code);
    assert BothInChain(cfg, b, |a.jobs|, |a.jobs| + 1, h);
    ReachesOk(cfg, s, b);
    var c := BothFinish(cfg, s, b, |a.jobs|, |a.jobs| + 1, h, "", "");
    assert TwiceGranted(cfg, c, h);
  }

  /** From a state on, a code can be granted twice if and only if a poll can still read its session as
      approved, or two polls have done so and not failed. */
  lemma CanGrantTwiceIff(cfg: Config, s: Site, code: string)
    requires Unbounded(cfg) && Inv(cfg, s) && cfg.hash(code) in s.g.sessions
    ensures CanGrantTwice(cfg, s, cfg.hash(code)) <==> Open(s, cfg.hash(code)) || TwoInChain(cfg, s, cfg.hash(code))
  {
    var h := cfg.hash(code);
    if Open(s, h) {
      OpenGrantsTwice(cfg, s, code);
    } else if TwoInChain(cfg, s, h) {
      var i, j :| BothInChain(cfg, s, i, j, h);
      ReachesItself(cfg, s);
      var c := BothFinish(cfg, s, s, i, j, h, "", "");
      assert TwiceGranted(cfg, c, h);
    } else {
      ClosedGrantsOnce(cfg, s, h);
    }
  }

  // ----- When the secret of a node can still change -----

  ghost predicate SecretIsFinal(cfg: Config, s: Site, n: string)
    requires n in s.g.nodes
  {
    forall s' :: Reaches(cfg, s, s') ==> HasSecret(s', n, s.g.nodes[n].introSecret)
  }

  predicate NoneCommitted(s: Site, h: string) {
    forall i :: 0 <= i < |s.jobs| ==> !Committed(s.jobs[i].at, h)
  }

  /** With the session consumed and no request committed to it, nothing changes its node's secret. */
  lemma SettledStep(cfg: Config, s: Site, step: Step, h: string, n: string)
    requires Inv(cfg, s) && Enabled(s, step) && Bound(s.g, h, n) && SessionConsumed(s.g, h) && NoneCommitted(s, h)
    ensures var s' := Next(cfg, s, step);
            && Bound(s'.g, h, n) && SessionConsumed(s'.g, h) && NoneCommitted(s', h)
            && n in s.g.nodes && HasSecret(s', n, s.g.nodes[n].introSecret)
  {
    StepEvolvesSessions(cfg, s, step);
    var s' := Next(cfg, s, step);
    if step.Run? {
      assert JobOk(cfg, s.g, Unix(s.clock), s.jobs[step.job]);
      NobodyCommits(cfg, s.g, s.jobs[step.job].at, step.luck, h);
      OtherSecretsOnly(cfg, s.g, Unix(s.clock), s.jobs[step.job].at, step.luck, h, n);
    }
  }

  /** A statement commits its request to a session only if that is not consumed yet. */
  lemma NobodyCommits(cfg: Config, g: Grants, t: Task, luck: Luck, h: string)
    requires !Committed(t, h) && SessionConsumed(g, h)
    ensures !Committed(Statement(cfg, g, t, luck).1, h)
  {
    if Polls(t) {
      PollsCommitUnconsumed(cfg, g, t, luck, h);
    } else if Provisions(t) {
      ProvisionsStay(cfg, g, t, luck, h);
    } else if Approves(t) {
      ApprovalsCommitPending(cfg, g, t, luck, h);
    } else {
      OthersCommitToNothing(cfg, g, t, luck);
    }
  }

  lemma PollsCommitUnconsumed(cfg: Config, g: Grants, t: Task, luck: Luck, h: string)
    requires Polls(t) && !Committed(t, h) && SessionConsumed(g, h)
    ensures !Committed(Statement(cfg, g, t, luck).1, h)
  {
  }

  lemma ProvisionsStay(cfg: Config, g: Grants, t: Task, luck: Luck, h: string)
    requires Provisions(t) && !Committed(t, h)
    ensures !Committed(Statement(cfg, g, t, luck).1, h)
  {
  }

  lemma ApprovalsCommitPending(cfg: Config, g: Grants, t: Task, luck: Luck, h: string)
    requires Approves(t) && !Committed(t, h) && SessionConsumed(g, h)
    ensures !Committed(Statement(cfg, g, t, luck).1, h)
  {
  }

  lemma OthersCommitToNothing(cfg: Config, g: Grants, t: Task, luck: Luck)
    requires !Polls(t) && !Provisions(t) && !Approves(t)
    ensures forall h :: !Committed(Statement(cfg, g, t, luck).1, h)
  {
  }

  lemma PollsKeepNodes(cfg: Config, g: Grants, t: Task, luck: Luck)
    requires Polls(t)
    ensures Apply(g, Statement(cfg, g, t, luck).0).nodes == g.nodes
  {
  }

  lemma ApprovalsKeepNodes(cfg: Config, g: Grants, t: Task, luck: Luck)
    requires Approves(t)
    ensures Apply(g, Statement(cfg, g, t, luck).0).nodes == g.nodes
  {
  }

  lemma NodesStay(cfg: Config, g: Grants, t: Task, luck: Luck)
    requires !Provisions(t) && !t.AddDeviceNode?
    ensures Apply(g, Statement(cfg, g, t, luck).0).nodes == g.nodes
  {
    if Polls(t) {
      PollsKeepNodes(cfg, g, t, luck);
    } else if Approves(t) {
      ApprovalsKeepNodes(cfg, g, t, luck);
    }
  }

  lemma ProvisionKeepsSecretsBut(cfg: Config, g: Grants, t: Task, luck: Luck, n: string)
    requires n in g.nodes && Provisions(t) && !(t.SetSecret? && t.nodeId == n)
    ensures var nodes := Apply(g, Statement(cfg, g, t, luck).0).nodes;
            n in nodes && nodes[n].introSecret == g.nodes[n].introSecret
  {
  }

  lemma SecretsStayBut(cfg: Config, g: Grants, t: Task, luck: Luck, n: string)
    requires n in g.nodes && !(t.SetSecret? && t.nodeId == n)
    ensures var nodes := Apply(g, Statement(cfg, g, t, luck).0).nodes;
            n in nodes && nodes[n].introSecret == g.nodes[n].introSecret
  {
    if Provisions(t) {
      ProvisionKeepsSecretsBut(cfg, g, t, luck, n);
    } else if !t.AddDeviceNode? {
      NodesStay(cfg, g, t, luck);
    }
  }

  lemma OtherSecretsOnly(cfg: Config, g: Grants, now: int, t: Task, luck: Luck, h: string, n: string)
    requires Links(g) && TaskOk(g, now, t) && !Committed(t, h) && Bound(g, h, n)
    ensures var nodes := Apply(g, Statement(cfg, g, t, luck).0).nodes;
            n in nodes && nodes[n].introSecret == g.nodes[n].introSecret
  {
    assert n in g.nodes;
    if t.SetSecret? {
      assert Bound(g, t.h, t.nodeId);
    }
    SecretsStayBut(cfg, g, t, luck, n);
  }

  lemma {:induction false} SettledRun(cfg: Config, ss: seq<Site>, steps: seq<Step>, i: nat, j: nat, h: string,
                                      n: string)
    requires IsTrace(cfg, ss, steps) && Inv(cfg, ss[0]) && i <= j < |ss|
    requires Bound(ss[i].g, h, n) && SessionConsumed(ss[i].g, h) && NoneCommitted(ss[i], h)
    ensures Bound(ss[j].g, h, n) && SessionConsumed(ss[j].g, h) && NoneCommitted(ss[j], h)
    ensures n in ss[i].g.nodes && HasSecret(ss[j], n, ss[i].g.nodes[n].introSecret)
  {
    Reachable(cfg, ss, steps, i);
    if i < j {
      SettledRun(cfg, ss, steps, i, j - 1, h, n);
      Reachable(cfg, ss, steps, j - 1);
      assert StepAt(cfg, ss, steps, j - 1);
      SettledStep(cfg, ss[j - 1], steps[j - 1], h, n);
    }
  }

  lemma CommittedChangesSecret(cfg: Config, s: Site, i: nat, h: string, n: string)
    requires Unbounded(cfg) && Inv(cfg, s) && Bound(s.g, h, n) && i < |s.jobs| && Committed(s.jobs[i].at, h)
    ensures n in s.g.nodes && !SecretIsFinal(cfg, s, n)
  {
    var stored := s.g.nodes[n].introSecret;
    var secret := if stored.Some? then stored.value + "0" else "0";
    assert stored.Some? ==> |secret| == |stored.value| + 1;
    ReachesItself(cfg, s);
    var s' := Finish(cfg, s, s, i, h, secret);
    assert !HasSecret(s', n, stored);
  }

  /** Once a node's session is consumed, the stored secret is final if and only if no request is on its way
      to provision that node. */
  lemma SecretIsFinalIff(cfg: Config, s: Site, h: string, n: string)
    requires Unbounded(cfg) && Inv(cfg, s) && Bound(s.g, h, n) && SessionConsumed(s.g, h)
    ensures n in s.g.nodes && (SecretIsFinal(cfg, s, n) <==> NoneCommitted(s, h))
  {
    assert n in s.g.nodes;
    if NoneCommitted(s, h) {
      forall s' | Reaches(cfg, s, s')
        ensures HasSecret(s', n, s.g.nodes[n].introSecret)
      {
        var ss, steps :| RunBetween(cfg, s, s', ss, steps);
        SettledRun(cfg, ss, steps, 0, |steps|, h, n);
      }
    } else {
      var i :| 0 <= i < |s.jobs| && Committed(s.jobs[i].at, h);
      CommittedChangesSecret(cfg, s, i, h, n);
    }
  }

  /** Step `k` ends a poll for session `h` with the credentials of node `n`, among them the secret. */
  ghost predicate HandsOut(cfg: Config, ss: seq<Site>, steps: seq<Step>, k: nat, h: string, n: string, secret: string) {
    && k < |steps| && k + 1 < |ss| && steps[k].Run? && steps[k].job < |ss[k].jobs| && steps[k].job < |ss[k + 1].jobs|
    && ss[k].jobs[steps[k].job].at.SetSecret? && ss[k].jobs[steps[k].job].at.h == h
    && GrantedTo(cfg, ss[k + 1].jobs[steps[k].job], h)
    && ss[k + 1].jobs[steps[k].job].at.answer.nodeId == Some(n)
    && ss[k + 1].jobs[steps[k].job].at.answer.introSecret == Some(secret)
  }

  lemma HandedOut(cfg: Config, ss: seq<Site>, steps: seq<Step>, k: nat, h: string, n: string, secret: string)
    requires IsTrace(cfg, ss, steps) && Inv(cfg, ss[0]) && HandsOut(cfg, ss, steps, k, h, n, secret)
    ensures Bound(ss[k + 1].g, h, n) && SessionConsumed(ss[k + 1].g, h) && HasSecret(ss[k + 1], n, Some(secret))
  {
    Reachable(cfg, ss, steps, k);
    assert StepAt(cfg, ss, steps, k);
    assert JobOk(cfg, ss[k].g, Unix(ss[k].clock), ss[k].jobs[steps[k].job]);
    StepEvolvesSessions(cfg, ss[k], steps[k]);
  }

  /** The secret a poll handed out stays the stored one for good, unless at that moment another request is
      on its way to provision the same node: a second poll that also read `approved`, or the followed link
      that approved the session. */
  lemma HandedOutSecretStays(cfg: Config, ss: seq<Site>, steps: seq<Step>, k: nat, j: nat, h: string, n: string,
                             secret: string)
    requires IsTrace(cfg, ss, steps) && Inv(cfg, ss[0]) && k < j < |ss|
    requires HandsOut(cfg, ss, steps, k, h, n, secret) && NoneCommitted(ss[k + 1], h)
    ensures HasSecret(ss[j], n, Some(secret))
  {
    HandedOut(cfg, ss, steps, k, h, n, secret);
    SettledRun(cfg, ss, steps, k + 1, j, h, n);
  }

  // ----- Runs that show it -----

  /** A run that opens a session for `code`; with a node if `endpoint` is not empty. */
  lemma OpenedSession(cfg: Config, s0: Site, code: string, userCode: string, endpoint: string) returns (s: Site)
    requires Initial(s0) && s0.clock == 0
    ensures Reaches(cfg, s0, s) && s.clock == 0
    ensures s.g.sessions ==
            map[cfg.hash(code) :=
              NewSession(userCode, if endpoint != "" then Some("node") else None, 0, cfg.magicTtl)]
    ensures s.g.users == map[] && s.g.magic == map[]
  {
    ReachesItself(cfg, s0);
    var start := OpenDevice("LivingCV", endpoint, []);
    var a := Begun(cfg, s0, s0, start);
    var b := RunNow(cfg, s0, a, 0, "", "", None);
    if endpoint != "" {
      assert b.jobs == [Job(start, AddDeviceNode("LivingCV", endpoint, [], 0))] && b.g == s0.g;
      b := RunNow(cfg, s0, b, 0, "node", "", None);
    }
    s := SessionAdded(cfg, s0, b, code, userCode);
  }

  lemma SessionAdded(cfg: Config, s0: Site, s: Site, code: string, userCode: string) returns (s': Site)
    requires Reaches(cfg, s0, s) && |s.jobs| == 1 && s.jobs[0].at.AddDeviceSession? && s.g.sessions == map[]
    ensures Reaches(cfg, s0, s') && s'.clock == s.clock
    ensures s'.g == s.g.(sessions :=
                          map[cfg.hash(code) :=
                            NewSession(userCode, s.jobs[0].at.node, s.jobs[0].at.openedAt, cfg.magicTtl)])
  {
    s' := RunNow(cfg, s0, s, 0, code, userCode, None);
  }

  /** Two polls overlap and one code is granted twice; of the two secrets handed out only the second is
      the stored one. */
  lemma OverlappingPollsBothGranted(cfg: Config, s0: Site, code: string, first: string, second: string)
    returns (s: Site, i: nat, j: nat)
    requires Unbounded(cfg) && cfg.magicTtl >= 0 && Initial(s0) && s0.clock == 0 && first != second
    ensures Reaches(cfg, s0, s) && TwoGranted(cfg, s, i, j, cfg.hash(code))
    ensures s.jobs[i].at.answer.introSecret == Some(first) && s.jobs[j].at.answer.introSecret == Some(second)
    ensures s.jobs[i].at.answer.nodeId.Some? && HasSecret(s, s.jobs[i].at.answer.nodeId.value, Some(second))
  {
    var h := cfg.hash(code);
    var a := OpenedSession(cfg, s0, code, "code", "https://node");
    var b := NewApproval(cfg, s0, a, h, "user");
    var c := TwoNewPolls(cfg, s0, b, code);
    i, j := |b.jobs|, |b.jobs| + 1;
    assert BothInChain(cfg, c, i, j, h);
    InitialIsOk(cfg, s0);
    ReachesOk(cfg, s0, c);
    s := BothFinish(cfg, s0, c, i, j, h, first, second);
  }

  /** A magic link for session `h`, written for a new user. */
  lemma WrittenLink(cfg: Config, s0: Site, s: Site, h: string, token: string) returns (s': Site)
    requires Reaches(cfg, s0, s) && h in s.g.sessions && s.g.sessions[h].userCode != ""
    requires s.g.users == map[] && s.g.magic == map[]
    ensures Reaches(cfg, s0, s') && s'.clock == s.clock && |s'.jobs| == |s.jobs| + 1
    ensures s'.g.sessions == s.g.sessions
    ensures s'.g.magic == map[cfg.hash(token) := MagicToken(Some("user"), Some(h), Unix(s.clock + cfg.magicTtl), None)]
  {
    var i := |s.jobs|;
    var a := Begun(cfg, s0, s, StartLink("mail", s.g.sessions[h].userCode));
    var b := RunNow(cfg, s0, a, i, "", "", Some(h));
    assert b.jobs[i].at == AddLinkUser("mail", Some(h)) && b.g == s.g;
    var c := RunNow(cfg, s0, b, i, "user", "", None);
    assert c.jobs[i].at == AddLink("user", Some(h)) && c.g.magic == map[] && c.g.sessions == s.g.sessions;
    s' := RunNow(cfg, s0, c, i, token, "", None);
  }

  /** A request that has just approved session `h` through that link. */
  lemma FollowedLink(cfg: Config, s0: Site, s: Site, h: string, token: string) returns (s': Site)
    requires Reaches(cfg, s0, s) && h in s.g.sessions && Approvable(s.g.sessions[h], Unix(s.clock))
    requires s.g.magic == map[cfg.hash(token) := MagicToken(Some("user"), Some(h), Unix(s.clock + cfg.magicTtl), None)]
    requires cfg.magicTtl >= 0
    ensures Reaches(cfg, s0, s') && s'.clock == s.clock
    ensures s'.g.sessions == s.g.sessions[h := ApprovedSession(s.g.sessions[h], "user", Unix(s.clock))]
    ensures |s'.jobs| == |s.jobs| + 1 && s'.jobs[|s.jobs|].at == AddApprovalToken(h, "user")
  {
    UnixMonotone(s.clock, s.clock + cfg.magicTtl);
    var a := Begun(cfg, s0, s, FollowLink(token));
    var b := RunNow(cfg, s0, a, |s.jobs|, "", "", None);
    assert b.jobs[|s.jobs|].at == ApproveByLink(h, "user") && b.g.sessions == s.g.sessions;
    s' := ApprovedNow(cfg, s0, b, |s.jobs|, h);
  }

  lemma ApprovedNow(cfg: Config, s0: Site, s: Site, i: nat, h: string) returns (s': Site)
    requires Reaches(cfg, s0, s) && i < |s.jobs| && s.jobs[i].at == ApproveByLink(h, "user")
    requires h in s.g.sessions && Approvable(s.g.sessions[h], Unix(s.clock))
    ensures Reaches(cfg, s0, s') && s'.clock == s.clock && |s'.jobs| == |s.jobs|
    ensures s'.g.sessions == s.g.sessions[h := ApprovedSession(s.g.sessions[h], "user", Unix(s.clock))]
    ensures s'.jobs[i].at == AddApprovalToken(h, "user")
  {
    s' := RunNow(cfg, s0, s, i, "", "", None);
  }

  /** One poll is enough: it reads `approved` while the followed link that approved the session is still at
      work, and that link's request then replaces the secret the poll has handed out. */
  lemma ApprovingLinkReplacesSecret(cfg: Config, s0: Site, code: string, token: string, first: string, second: string)
    returns (s: Site, i: nat)
    requires Unbounded(cfg) && cfg.magicTtl >= 0 && Initial(s0) && s0.clock == 0 && first != second
    ensures Reaches(cfg, s0, s) && i < |s.jobs| && GrantedTo(cfg, s.jobs[i], cfg.hash(code))
    ensures s.jobs[i].at.answer.introSecret == Some(first)
    ensures s.jobs[i].at.answer.nodeId.Some? && HasSecret(s, s.jobs[i].at.answer.nodeId.value, Some(second))
  {
    var h := cfg.hash(code);
    var a := OpenedSession(cfg, s0, code, "code", "https://node");
    var l := WrittenLink(cfg, s0, a, h, token);
    var b := FollowedLink(cfg, s0, l, h, token);
    var c := NewPoll(cfg, s0, b, code);
    i := |b.jobs|;
    InitialIsOk(cfg, s0);
    ReachesOk(cfg, s0, c);
    var d := FinishPoll(cfg, s0, c, i, h, first);
    s := Finish(cfg, s0, d, |b.jobs| - 1, h, second);
  }

  lemma ConsumedNow(cfg: Config, s0: Site, s: Site, i: nat, h: string) returns (s': Site)
    requires Reaches(cfg, s0, s) && i < |s.jobs| && s.jobs[i].at == ConsumePoll(h)
    requires h in s.g.sessions && s.g.sessions[h].status == Approved && s.g.sessions[h].userId.Some?
    ensures Reaches(cfg, s0, s') && |s'.jobs| == |s.jobs| && s'.jobs[i].start == s.jobs[i].start
    ensures s'.g.sessions == s.g.sessions[h := ConsumedSession(s.g.sessions[h], Unix(s.clock))]
    ensures InChain(cfg, s.jobs[i], h) ==> InChain(cfg, s'.jobs[i], h) && !s'.jobs[i].at.Done?
  {
    s' := RunNow(cfg, s0, s, i, "", "", None);
  }

  /** The expiry bounds the approval only: for every lifetime there is a run in which a session is approved
      in time and a poll any time after its expiry is granted. */
  lemma LateRedemption(cfg: Config, s0: Site, code: string, late: nat) returns (s: Site, i: nat)
    requires Unbounded(cfg) && cfg.magicTtl >= 0 && Initial(s0) && s0.clock == 0
    ensures Reaches(cfg, s0, s) && i < |s.jobs| && GrantedTo(cfg, s.jobs[i], cfg.hash(code))
    ensures cfg.hash(code) in s.g.sessions
    ensures var row := s.g.sessions[cfg.hash(code)];
            row.consumedAt.Some? && row.consumedAt.value == row.expiresAt + late
  {
    var h, expiry := cfg.hash(code), WholeSeconds(cfg.magicTtl);
    var a := OpenedSession(cfg, s0, code, "code", "");
    var b := NewApproval(cfg, s0, a, h, "user");
    ReachesNext(cfg, s0, b, Tick((expiry + late) * SECOND));
    var c := b.(clock := (expiry + late) * SECOND);
    var d := NewPoll(cfg, s0, c, code);
    i := |c.jobs|;
    var e := ConsumedNow(cfg, s0, d, i, h);
    InitialIsOk(cfg, s0);
    ReachesOk(cfg, s0, e);
    s := FinishPoll(cfg, s0, e, i, h, "");
  }

  lemma PendingPollLooksUp(cfg: Config, s0: Site, s: Site, code: string) returns (s': Site)
    requires Reaches(cfg, s0, s) && cfg.hash(code) in s.g.sessions
    requires var row := s.g.sessions[cfg.hash(code)];
             && row.status == Pending && row.expiresAt >= Unix(s.clock)
             && row.lastPollAt.None? && row.pollInterval == 5
    ensures Reaches(cfg, s0, s') && s'.g == s.g && s'.clock == s.clock
    ensures s'.jobs == s.jobs + [Job(StartPoll(code), StampPoll(cfg.hash(code), 5))]
  {
    var i, h := |s.jobs|, cfg.hash(code);
    var a := Begun(cfg, s0, s, StartPoll(code));
    var b := RunNow(cfg, s0, a, i, "", "", None);
    assert b.g == s.g && b.jobs == s.jobs + [Job(StartPoll(code), JudgePoll(h, s.g.sessions[h]))];
    s' := RunNow(cfg, s0, b, i, "", "", None);
  }

  lemma StampNow(cfg: Config, s0: Site, s: Site, i: nat, h: string) returns (s': Site)
    requires Reaches(cfg, s0, s) && i < |s.jobs| && s.jobs[i].at == StampPoll(h, 5)
    ensures Reaches(cfg, s0, s') && s'.clock == s.clock
    ensures s'.jobs == s.jobs[i := Job(s.jobs[i].start, Done(AuthorizationPending(5)))]
  {
    s' := RunNow(cfg, s0, s, i, "", "", None);
  }

  /** Two polls overlap between lookup and stamp and both are told to go on, in one and the same second. */
  lemma OverlappingPollsBothPending(cfg: Config, s0: Site, code: string) returns (s: Site)
    requires cfg.magicTtl >= 0 && Initial(s0) && s0.clock == 0
    ensures Reaches(cfg, s0, s) && s.clock == 0 && |s.jobs| >= 2
    ensures s.jobs[|s.jobs| - 2] == s.jobs[|s.jobs| - 1] == Job(StartPoll(code), Done(AuthorizationPending(5)))
  {
    var a := OpenedSession(cfg, s0, code, "code", "");
    var b := PendingPollLooksUp(cfg, s0, a, code);
    var c := PendingPollLooksUp(cfg, s0, b, code);
    var d := StampNow(cfg, s0, c, |a.jobs|, cfg.hash(code));
    s := StampNow(cfg, s0, d, |a.jobs| + 1, cfg.hash(code));
  }

  // ----- Requests that do not overlap -----

  /** At no time are two requests unfinished. */
  ghost predicate OneAtATime(ss: seq<Site>) {
    forall m, i, j :: (0 <= m < |ss| && 0 <= i < |ss[m].jobs| && 0 <= j < |ss[m].jobs|
                       && !ss[m].jobs[i].at.Done? && !ss[m].jobs[j].at.Done?) ==> i == j
  }

  lemma {:induction false} DoneStays(cfg: Config, ss: seq<Site>, steps: seq<Step>, m: nat, n: nat, i: nat)
    requires IsTrace(cfg, ss, steps) && m <= n < |ss| && i < |ss[m].jobs|
    ensures i < |ss[n].jobs| && (ss[m].jobs[i].at.Done? ==> ss[n].jobs[i] == ss[m].jobs[i])
  {
    if m < n {
      DoneStays(cfg, ss, steps, m, n - 1, i);
      assert StepAt(cfg, ss, steps, n - 1);
      JobsStay(cfg, ss[n - 1], steps[n - 1], i);
    }
  }

  lemma SerialStamps(cfg: Config, ss: seq<Site>, steps: seq<Step>, k: nat, l: nat, r: nat, h: string)
    requires IsTrace(cfg, ss, steps) && Initial(ss[0]) && OneAtATime(ss)
    requires k < l && Stamps(ss, steps, k, h) && Stamps(ss, steps, l, h) && LooksUp(cfg, ss, steps, r, steps[l].job, h)
    ensures k < r
  {
    if r <= k {
      StampIsKept(cfg, ss, steps, k, h);
      DoneStays(cfg, ss, steps, k + 1, l, steps[k].job);
      DoneStays(cfg, ss, steps, r, k, steps[l].job);
      DoneStays(cfg, ss, steps, k, l, steps[l].job);
    }
  }

  /** For requests that come one at a time all the conditions above hold: a code is granted at most once,
      its polls are paced, and the secret handed out stays. */
  lemma OneAtATimeIsApart(cfg: Config, ss: seq<Site>, steps: seq<Step>, h: string)
    requires IsTrace(cfg, ss, steps) && Initial(ss[0]) && OneAtATime(ss)
    ensures ConsumesApart(cfg, ss, h) && StampsApart(cfg, ss, steps, h)
    ensures forall k: nat, n, secret :: HandsOut(cfg, ss, steps, k, h, n, secret) ==> NoneCommitted(ss[k + 1], h)
  {
    forall k: nat, l: nat, r: nat | k < l && Stamps(ss, steps, k, h) && Stamps(ss, steps, l, h)
                                    && LooksUp(cfg, ss, steps, r, steps[l].job, h)
      ensures k < r
    {
      SerialStamps(cfg, ss, steps, k, l, r, h);
    }
    forall k: nat, n, secret | HandsOut(cfg, ss, steps, k, h, n, secret)
      ensures NoneCommitted(ss[k + 1], h)
    {
      assert StepAt(cfg, ss, steps, k);
      SerialHandOut(cfg, ss[k], steps[k], h);
    }
  }

  lemma SerialHandOut(cfg: Config, s: Site, step: Step, h: string)
    requires Enabled(s, step) && step.Run? && Next(cfg, s, step).jobs[step.job].at.Done?
    requires forall i, j :: (0 <= i < |s.jobs| && 0 <= j < |s.jobs| && !s.jobs[i].at.Done? && !s.jobs[j].at.Done?) ==>
                              i == j
    ensures NoneCommitted(Next(cfg, s, step), h)
  {
    var jobs := Next(cfg, s, step).jobs;
    forall i | 0 <= i < |jobs|
      ensures jobs[i].at.Done?
    {
      JobsStay(cfg, s, step, i);
    }
  }
}
