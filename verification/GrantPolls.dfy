/** Polling for a device session while other requests run: pacing, how often a code is granted, and whether
    the secret handed out stays the stored one. */
module GrantPolls {
  import opened Basics
  import opened Schema
  import opened GrantMachine
  import opened GrantTheorems

  // ----- Pacing -----

  /** Step `k` stamps session `h` and so answers authorization_pending. */
  predicate Stamps(ss: seq<Site>, steps: seq<Step>, k: nat, h: string) {
    && k < |steps| && k < |ss| && steps[k].Run? && steps[k].job < |ss[k].jobs| && steps[k].luck.up
    && ss[k].jobs[steps[k].job].at.StampPoll? && ss[k].jobs[steps[k].job].at.h == h
  }

  lemma StampIsKept(cfg: Config, ss: seq<Site>, steps: seq<Step>, k: nat, h: string)
    requires IsTrace(cfg, ss, steps) && Initial(ss[0]) && Stamps(ss, steps, k, h)
    ensures h in ss[k + 1].g.sessions && ss[k + 1].g.sessions[h].lastPollAt == Some(Unix(steps[k].luck.now))
    ensures steps[k].job < |ss[k + 1].jobs| && ss[k + 1].jobs[steps[k].job].at == Done(AuthorizationPending(5))
  {
    Reachable(cfg, ss, steps, k);
    assert StepAt(cfg, ss, steps, k);
    assert JobOk(cfg, ss[k].g, Unix(ss[k].clock), ss[k].jobs[steps[k].job]);
  }

  /** Two authorization_pending answers for one session: `r` is the lookup and `q` the clock reading of the
      later one. If its lookup comes after the earlier one's stamp, that reading is at least five seconds
      after the stamp (section 3.5 of RFC 8628). */
  lemma PollsArePaced(cfg: Config, ss: seq<Site>, steps: seq<Step>, k: nat, l: nat, h: string)
    returns (r: nat, q: nat)
    requires IsTrace(cfg, ss, steps) && Initial(ss[0])
    requires k < l && Stamps(ss, steps, k, h) && Stamps(ss, steps, l, h)
    ensures r < q < l && LooksUp(cfg, ss, steps, r, steps[l].job, h) && Runs(steps, q, steps[l].job)
    ensures h in ss[r].g.sessions && ss[r].g.sessions[h].expiresAt >= Unix(steps[q].luck.now)
    ensures k < r ==> Unix(steps[k].luck.now) + 5 <= Unix(steps[q].luck.now)
  {
    r, q := StampHistory(cfg, ss, steps, l, steps[l].job);
    if k < r {
      StampIsKept(cfg, ss, steps, k, h);
      SessionEvolves(cfg, ss, steps, k + 1, r, h);
      Reachable(cfg, ss, steps, r);
      assert SessionOk(ss[r].g.sessions[h], Unix(ss[r].clock));
    }
  }

  /** Polls for `h` do not overlap between lookup and stamp. */
  ghost predicate StampsApart(cfg: Config, ss: seq<Site>, steps: seq<Step>, h: string) {
    forall k: nat, l: nat, r: nat ::
      (k < l && Stamps(ss, steps, k, h) && Stamps(ss, steps, l, h) && LooksUp(cfg, ss, steps, r, steps[l].job, h)) ==>
        k < r
  }

  /** The authorization_pending answers for a session among the first `n` steps. */
  function PendingAnswers(ss: seq<Site>, steps: seq<Step>, n: nat, h: string): nat {
    if n == 0 then 0 else PendingAnswers(ss, steps, n - 1, h) + if Stamps(ss, steps, n - 1, h) then 1 else 0
  }

  lemma FirstAnswer(cfg: Config, ss: seq<Site>, steps: seq<Step>, l: nat, h: string) returns (q: nat)
    requires IsTrace(cfg, ss, steps) && Initial(ss[0]) && Stamps(ss, steps, l, h)
    ensures q < l && Runs(steps, q, steps[l].job) && h in ss[l].g.sessions
    ensures ss[l].g.sessions[h].createdAt <= Unix(steps[q].luck.now) <= ss[l].g.sessions[h].expiresAt
  {
    var r;
    r, q := StampHistory(cfg, ss, steps, l, steps[l].job);
    Reachable(cfg, ss, steps, r);
    SessionEvolves(cfg, ss, steps, r, l, h);
    assert SessionOk(ss[r].g.sessions[h], Unix(ss[r].clock));
    ClockGrows(cfg, ss, steps, r, q);
    assert StepAt(cfg, ss, steps, q);
    UnixMonotone(ss[r].clock, steps[q].luck.now);
  }

  /** The last pending answer was judged at least five seconds per earlier answer after the session began. */
  lemma {:induction false} PendingAnswersTakeTime(cfg: Config, ss: seq<Site>, steps: seq<Step>, n: nat, h: string)
    returns (l: nat, q: nat)
    requires IsTrace(cfg, ss, steps) && Initial(ss[0]) && n <= |steps| && StampsApart(cfg, ss, steps, h)
    requires PendingAnswers(ss, steps, n, h) > 0
    ensures q < l < n && Stamps(ss, steps, l, h) && Runs(steps, q, steps[l].job) && h in ss[l].g.sessions
    ensures ss[l].g.sessions[h].createdAt + 5 * (PendingAnswers(ss, steps, n, h) - 1)
            <= Unix(steps[q].luck.now) <= ss[l].g.sessions[h].expiresAt
  {
    if !Stamps(ss, steps, n - 1, h) {
      l, q := PendingAnswersTakeTime(cfg, ss, steps, n - 1, h);
    } else {
      l := n - 1;
      q := FirstAnswer(cfg, ss, steps, l, h);
      if PendingAnswers(ss, steps, n - 1, h) > 0 {
        var k, q0 := PendingAnswersTakeTime(cfg, ss, steps, n - 1, h);
        var r;
        r, q := PollsArePaced(cfg, ss, steps, k, l, h);
        assert k < r;
        SessionEvolves(cfg, ss, steps, k, l, h);
        SessionEvolves(cfg, ss, steps, r, l, h);
        LaterReading(cfg, ss, steps, q0, k);
      }
    }
  }

  lemma LaterReading(cfg: Config, ss: seq<Site>, steps: seq<Step>, q: nat, k: nat)
    requires IsTrace(cfg, ss, steps) && q < k < |steps| && steps[q].Run? && steps[k].Run?
    ensures Unix(steps[q].luck.now) <= Unix(steps[k].luck.now)
  {
    assert StepAt(cfg, ss, steps, q) && StepAt(cfg, ss, steps, k);
    ClockGrows(cfg, ss, steps, q + 1, k);
    UnixMonotone(steps[q].luck.now, steps[k].luck.now);
  }

  /** A session whose polls do not overlap gets at most one pending answer, plus one for every five seconds
      of its lifetime. */
  lemma PendingAnswersAreBounded(cfg: Config, ss: seq<Site>, steps: seq<Step>, h: string)
    requires IsTrace(cfg, ss, steps) && Initial(ss[0]) && h in ss[|steps|].g.sessions
    requires StampsApart(cfg, ss, steps, h)
    ensures var s := ss[|steps|].g.sessions[h];
            5 * (PendingAnswers(ss, steps, |steps|, h) - 1) <= s.expiresAt - s.createdAt
            || PendingAnswers(ss, steps, |steps|, h) == 0
  {
    if PendingAnswers(ss, steps, |steps|, h) > 0 {
      var l, q := PendingAnswersTakeTime(cfg, ss, steps, |steps|, h);
      SessionEvolves(cfg, ss, steps, l, |steps|, h);
    }
  }

  // ----- Who can be granted a code -----

  /** A poll for session `h` that read `approved` and has not failed since. */
  predicate InChain(cfg: Config, job: Job, h: string) {
    && job.start.StartPoll? && cfg.hash(job.start.code) == h
    && (job.at.ConsumePoll? || job.at.AddPollToken? || (Provisions(job.at) && job.at.end.ByPoll?)
        || (job.at.Done? && job.at.answer.Granted?))
  }

  predicate GrantedTo(cfg: Config, job: Job, h: string) {
    InChain(cfg, job, h) && job.at.Done?
  }

  /** Step `r` is the lookup of request `i` and reads the session as approved. */
  predicate ReadsApproved(cfg: Config, ss: seq<Site>, steps: seq<Step>, r: nat, i: nat, h: string) {
    && LooksUp(cfg, ss, steps, r, i, h) && steps[r].luck.up
    && h in ss[r].g.sessions && ss[r].g.sessions[h].status == Approved
  }

  /** Step `k` runs a statement of request `i` that fails. */
  ghost predicate FailsAt(cfg: Config, ss: seq<Site>, steps: seq<Step>, k: nat, i: nat) {
    && Runs(steps, k, i) && k < |ss| && i < |ss[k].jobs|
    && Statement(cfg, ss[k].g, ss[k].jobs[i].at, steps[k].luck).1 == Done(Broken)
  }

  ghost predicate HasRead(cfg: Config, ss: seq<Site>, steps: seq<Step>, n: nat, i: nat, h: string) {
    exists r :: 0 <= r < n && ReadsApproved(cfg, ss, steps, r, i, h)
  }

  ghost predicate HasFailed(cfg: Config, ss: seq<Site>, steps: seq<Step>, n: nat, i: nat) {
    exists k :: 0 <= k < n && FailsAt(cfg, ss, steps, k, i)
  }

  lemma HistoryStep(cfg: Config, ss: seq<Site>, steps: seq<Step>, n: nat, i: nat, h: string)
    ensures HasRead(cfg, ss, steps, n + 1, i, h) <==>
            HasRead(cfg, ss, steps, n, i, h) || ReadsApproved(cfg, ss, steps, n, i, h)
    ensures HasFailed(cfg, ss, steps, n + 1, i) <==>
            HasFailed(cfg, ss, steps, n, i) || FailsAt(cfg, ss, steps, n, i)
  {
  }

  /** How one statement moves a request into, along and out of the chain. */
  lemma ChainStatement(cfg: Config, g: Grants, now: int, job: Job, luck: Luck, h: string)
    requires SessionsOk(g, now) && JobOk(cfg, g, now, job) && !job.at.Done?
    ensures var t := Statement(cfg, g, job.at, luck).1;
            InChain(cfg, Job(job.start, t), h) <==>
              && t != Done(Broken)
              && (InChain(cfg, job, h)
                  || (job.at.StartPoll? && cfg.hash(job.at.code) == h && luck.up
                      && h in g.sessions && g.sessions[h].status == Approved))
  {
    if job.at.ConsumePoll? {
      assert SessionOk(g.sessions[job.at.h], now);
    }
  }

  /** A request is in the chain, or at its end, if and only if its lookup read the session as approved and
      none of its statements has failed. */
  lemma {:induction false} InChainIff(cfg: Config, ss: seq<Site>, steps: seq<Step>, n: nat, i: nat, h: string)
    requires IsTrace(cfg, ss, steps) && Initial(ss[0]) && n < |ss| && i < |ss[n].jobs|
    ensures InChain(cfg, ss[n].jobs[i], h) <==>
            HasRead(cfg, ss, steps, n, i, h) && !HasFailed(cfg, ss, steps, n, i)
    ensures HasFailed(cfg, ss, steps, n, i) ==> ss[n].jobs[i].at == Done(Broken)
  {
    var m := n - 1;
    assert StepAt(cfg, ss, steps, m);
    JobsStay(cfg, ss[m], steps[m], i);
    HistoryStep(cfg, ss, steps, m, i, h);
    if i >= |ss[m].jobs| {
      NoHistoryYet(cfg, ss, steps, m, i, h);
    } else {
      InChainIff(cfg, ss, steps, m, i, h);
      Reachable(cfg, ss, steps, m);
      assert JobOk(cfg, ss[m].g, Unix(ss[m].clock), ss[m].jobs[i]);
      if Runs(steps, m, i) {
        ChainStatement(cfg, ss[m].g, Unix(ss[m].clock), ss[m].jobs[i], steps[m].luck, h);
      }
    }
  }

  lemma {:induction false} JobsOnlyGrow(cfg: Config, ss: seq<Site>, steps: seq<Step>, k: nat, n: nat)
    requires IsTrace(cfg, ss, steps) && k <= n < |ss|
    ensures |ss[k].jobs| <= |ss[n].jobs|
  {
    if k < n {
      JobsOnlyGrow(cfg, ss, steps, k, n - 1);
      assert StepAt(cfg, ss, steps, n - 1);
    }
  }

  lemma NoHistoryYet(cfg: Config, ss: seq<Site>, steps: seq<Step>, n: nat, i: nat, h: string)
    requires IsTrace(cfg, ss, steps) && n < |ss| && i >= |ss[n].jobs|
    ensures !HasRead(cfg, ss, steps, n, i, h) && !HasFailed(cfg, ss, steps, n, i)
  {
    forall k | 0 <= k < n
      ensures i >= |ss[k].jobs|
    {
      JobsOnlyGrow(cfg, ss, steps, k, n);
    }
  }

  /** A poll is granted its code exactly when its lookup read the session as approved and it then ran to its
      end without a failing statement. So a code is granted as often as that happens. */
  lemma GrantedIff(cfg: Config, ss: seq<Site>, steps: seq<Step>, n: nat, i: nat, h: string)
    requires IsTrace(cfg, ss, steps) && Initial(ss[0]) && n < |ss| && i < |ss[n].jobs|
    ensures GrantedTo(cfg, ss[n].jobs[i], h) <==>
            ss[n].jobs[i].at.Done? && HasRead(cfg, ss, steps, n, i, h) && !HasFailed(cfg, ss, steps, n, i)
  {
    InChainIff(cfg, ss, steps, n, i, h);
  }
}
