/** What every run of the delivery worker guarantees. */
module OutboxTheorems {
  import opened Basics
  import opened Schema
  import opened Intros
  import opened Nodes
  import opened OutboxMachine

  // ----- The invariant holds in every reachable state -----

  lemma RecordedAppend(posts: seq<Post>, p: Post)
    ensures Recorded(posts + [p]) == Recorded(posts) + if p.recorded then 1 else 0
  {
    assert (posts + [p])[..|posts|] == posts;
  }

  lemma LogAppend(cfg: Config, row: Intro, posts: seq<Post>, clock: int, p: Post, row': Intro, clock': int)
    requires Ready(cfg) && RowOk(cfg, row) && LogOk(cfg, row, posts, clock)
    requires Due(row, Unix(clock))
    requires p.attempt == row.attempts + 1 && clock <= p.start <= p.end == clock'
    requires !p.recorded ==> row' == row
    requires p.recorded && Accepted(p.reply) ==> row'.status == Delivered && row'.attempts == row.attempts
    requires p.recorded && !Accepted(p.reply) ==>
               && row'.attempts == p.attempt
               && (row'.status == Failed
                   || (row'.status == Retrying
                       && row'.nextAttemptAt == Some(Unix(p.end + Delay(cfg, p.attempt)))))
    ensures LogOk(cfg, row', posts + [p], clock')
  {
    RecordedAppend(posts, p);
    var posts' := posts + [p];
    if |posts| > 0 {
      var last := posts[|posts| - 1];
      assert Follows(cfg, last, p) by {
        if last.recorded {
          assert row.status == Retrying;
          assert Unix(last.end + Delay(cfg, last.attempt)) <= Unix(clock);
        }
      }
      assert posts'[|posts'| - 2] == last;
    }
    forall i | 0 <= i < |posts'| - 1
      ensures Follows(cfg, posts'[i], posts'[i + 1])
    {
      if i < |posts| - 1 {
        assert Follows(cfg, posts[i], posts[i + 1]);
      }
    }
  }

  lemma LogLater(cfg: Config, row: Intro, posts: seq<Post>, clock: int, clock': int)
    requires Ready(cfg) && LogOk(cfg, row, posts, clock) && clock <= clock'
    ensures LogOk(cfg, row, posts, clock')
  {
  }

  lemma TickKeepsInv(cfg: Config, q: Queue, now: int)
    requires Ready(cfg) && Inv(cfg, q) && q.clock <= now
    ensures Inv(cfg, q.(clock := now))
  {
    var q' := q.(clock := now);
    UnixMonotone(q.clock, now);
    forall id | id in q'.intros
      ensures LogOk(cfg, q'.intros[id], Sent(q'.sent, id), q'.clock)
    {
      LogLater(cfg, q.intros[id], Sent(q.sent, id), q.clock, now);
    }
    assert BatchOk(q');
  }

  /** A row whose POST left the worker, after the step. */
  lemma PostedRow(cfg: Config, row: Intro, posts: seq<Post>, clock: int, c: Copy, t: DeliveryTarget, luck: Luck)
    requires Ready(cfg) && RowOk(cfg, row) && LogOk(cfg, row, posts, clock) && Due(row, Unix(clock)) && c.row == row
    requires clock <= luck.start <= luck.end && luck.resolved && luck.built
    ensures var intros := map[c.id := row];
            var row' := AfterAttempt(cfg, intros, c, Some(t), luck)[c.id];
            RowOk(cfg, row') && LogOk(cfg, row', posts + [PostFor(cfg, intros, c, t, luck)], luck.end)
  {
    var intros := map[c.id := row];
    LogAppend(cfg, row, posts, clock, PostFor(cfg, intros, c, t, luck),
              AfterAttempt(cfg, intros, c, Some(t), luck)[c.id], luck.end);
  }

  /** What an attempt does to its row depends on that row alone. */
  lemma AttemptIsLocal(cfg: Config, intros: map<string, Intro>, c: Copy, target: Option<DeliveryTarget>, luck: Luck)
    requires Ready(cfg) && c.row.attempts >= 0 && c.id in intros
    ensures AfterAttempt(cfg, intros, c, target, luck)[c.id]
            == AfterAttempt(cfg, map[c.id := intros[c.id]], c, target, luck)[c.id]
    ensures target.Some? ==>
              PostFor(cfg, intros, c, target.value, luck)
              == PostFor(cfg, map[c.id := intros[c.id]], c, target.value, luck)
  {
  }

  /** The attempted row after the step, and its log. */
  lemma AttemptedRow(cfg: Config, q: Queue, target: Option<DeliveryTarget>, luck: Luck)
    requires Ready(cfg) && Enabled(cfg, q, Attempt(target, luck))
    requires var c := q.batch[0];
             c.id in q.intros && q.intros[c.id] == c.row && Due(c.row, Unix(q.clock))
             && RowOk(cfg, c.row) && LogOk(cfg, c.row, Sent(q.sent, c.id), q.clock)
    ensures var q' := Next(cfg, q, Attempt(target, luck));
            var id := q.batch[0].id;
            RowOk(cfg, q'.intros[id]) && LogOk(cfg, q'.intros[id], Sent(q'.sent, id), q'.clock)
  {
    var c := q.batch[0];
    AttemptIsLocal(cfg, q.intros, c, target, luck);
    if Posts(target, luck) {
      PostedRow(cfg, c.row, Sent(q.sent, c.id), q.clock, c, target.value, luck);
    } else {
      LogLater(cfg, c.row, Sent(q.sent, c.id), q.clock, luck.end);
    }
  }

  /** An attempt touches one row and its log. */
  lemma AttemptFrame(cfg: Config, q: Queue, target: Option<DeliveryTarget>, luck: Luck, id: string)
    requires Ready(cfg) && Enabled(cfg, q, Attempt(target, luck)) && q.batch[0].id in q.intros
    ensures var q' := Next(cfg, q, Attempt(target, luck));
            && q'.intros.Keys == q.intros.Keys
            && q'.sent.Keys <= q.sent.Keys + {q.batch[0].id}
            && (id in q.intros && id != q.batch[0].id ==>
                  q'.intros[id] == q.intros[id] && Sent(q'.sent, id) == Sent(q.sent, id))
  {
  }

  lemma AttemptKeepsBatch(cfg: Config, q: Queue, target: Option<DeliveryTarget>, luck: Luck)
    requires Ready(cfg) && BatchOk(q) && Enabled(cfg, q, Attempt(target, luck))
    ensures BatchOk(Next(cfg, q, Attempt(target, luck)))
  {
    var q' := Next(cfg, q, Attempt(target, luck));
    UnixMonotone(q.clock, luck.end);
    forall i | 0 <= i < |q'.batch|
      ensures q'.batch[i].id in q'.intros && q'.intros[q'.batch[i].id] == q'.batch[i].row
              && Due(q'.batch[i].row, Unix(q'.clock))
    {
      assert q'.batch[i] == q.batch[i + 1] && q.batch[0].id != q.batch[i + 1].id;
      AttemptFrame(cfg, q, target, luck, q.batch[i + 1].id);
    }
  }

  lemma OtherRowsStayOk(cfg: Config, q: Queue, target: Option<DeliveryTarget>, luck: Luck, id: string)
    requires Ready(cfg) && Enabled(cfg, q, Attempt(target, luck)) && q.batch[0].id in q.intros
    requires id in q.intros && id != q.batch[0].id
    requires RowOk(cfg, q.intros[id]) && LogOk(cfg, q.intros[id], Sent(q.sent, id), q.clock)
    ensures var q' := Next(cfg, q, Attempt(target, luck));
            RowOk(cfg, q'.intros[id]) && LogOk(cfg, q'.intros[id], Sent(q'.sent, id), q'.clock)
  {
    AttemptFrame(cfg, q, target, luck, id);
    LogLater(cfg, q.intros[id], Sent(q.sent, id), q.clock, luck.end);
  }

  lemma AttemptKeepsInv(cfg: Config, q: Queue, target: Option<DeliveryTarget>, luck: Luck)
    requires Ready(cfg) && Inv(cfg, q) && Enabled(cfg, q, Attempt(target, luck))
    ensures Inv(cfg, Next(cfg, q, Attempt(target, luck)))
  {
    var q' := Next(cfg, q, Attempt(target, luck));
    var c := q.batch[0];
    assert c.id in q.intros && q.intros[c.id] == c.row && Due(c.row, Unix(q.clock));
    AttemptedRow(cfg, q, target, luck);
    AttemptKeepsBatch(cfg, q, target, luck);
    AttemptFrame(cfg, q, target, luck, c.id);
    forall id | id in q'.intros
      ensures RowOk(cfg, q'.intros[id]) && LogOk(cfg, q'.intros[id], Sent(q'.sent, id), q'.clock)
    {
      if id != c.id {
        OtherRowsStayOk(cfg, q, target, luck, id);
      }
    }
  }

  lemma SubmitKeepsInv(cfg: Config, q: Queue, id: string, request: Request, now: int)
    requires Ready(cfg) && Inv(cfg, q) && Enabled(cfg, q, Submit(id, request, now))
    ensures Inv(cfg, Next(cfg, q, Submit(id, request, now)))
  {
    TickKeepsInv(cfg, q, now);
    if id !in q.intros {
      NewRowKeepsInv(cfg, q.(clock := now), id, RowOf(request, now));
    }
  }

  lemma NewRowKeepsInv(cfg: Config, q: Queue, id: string, row: Intro)
    requires Ready(cfg) && Inv(cfg, q) && id !in q.intros
    requires row.status == Queued && row.attempts == 0 && row.deliveredAt.None? && row.nextAttemptAt.None?
    ensures Inv(cfg, q.(intros := q.intros[id := row]))
  {
    var q' := q.(intros := q.intros[id := row]);
    assert Sent(q.sent, id) == [] && LogOk(cfg, row, [], q.clock);
    assert BatchOk(q');
    forall o | o in q'.intros
      ensures RowOk(cfg, q'.intros[o]) && LogOk(cfg, q'.intros[o], Sent(q'.sent, o), q'.clock)
    {
    }
  }

  lemma LoadKeepsInv(cfg: Config, q: Queue, now: int, batch: seq<Copy>)
    requires Ready(cfg) && Inv(cfg, q) && Enabled(cfg, q, Load(now, batch))
    ensures Inv(cfg, Next(cfg, q, Load(now, batch)))
  {
    TickKeepsInv(cfg, q, now);
    assert BatchOk(Next(cfg, q, Load(now, batch)));
  }

  lemma StepKeepsInv(cfg: Config, q: Queue, s: Step)
    requires Ready(cfg) && Inv(cfg, q) && Enabled(cfg, q, s)
    ensures Inv(cfg, Next(cfg, q, s))
  {
    match s
    case Tick(now) => TickKeepsInv(cfg, q, now);
    case Submit(id, request, now) => SubmitKeepsInv(cfg, q, id, request, now);
    case Load(now, batch) => LoadKeepsInv(cfg, q, now, batch);
    case Attempt(target, luck) => AttemptKeepsInv(cfg, q, target, luck);
    case Abandon =>
  }

  lemma {:induction false} Reachable(cfg: Config, qs: seq<Queue>, steps: seq<Step>, i: nat)
    requires Ready(cfg) && IsTrace(cfg, qs, steps) && Inv(cfg, qs[0]) && i < |qs|
    ensures Inv(cfg, qs[i])
  {
    if i > 0 {
      Reachable(cfg, qs, steps, i - 1);
      assert StepAt(cfg, qs, steps, i - 1);
      StepKeepsInv(cfg, qs[i - 1], steps[i - 1]);
    }
  }

  /** A run can be prolonged by any enabled step. */
  lemma ExtendedTrace(cfg: Config, qs: seq<Queue>, steps: seq<Step>, s: Step, q: Queue)
    requires Ready(cfg) && IsTrace(cfg, qs, steps) && Enabled(cfg, qs[|steps|], s) && q == Next(cfg, qs[|steps|], s)
    ensures IsTrace(cfg, qs + [q], steps + [s])
  {
    forall i | 0 <= i < |steps + [s]|
      ensures StepAt(cfg, qs + [q], steps + [s], i)
    {
      if i < |steps| {
        assert StepAt(cfg, qs, steps, i);
      }
    }
  }

  // ----- Attempt accounting -----

  lemma {:induction false} RecordedBound(posts: seq<Post>)
    ensures Recorded(posts) <= |posts|
    ensures Recorded(posts) == |posts| <==> AllRecorded(posts)
  {
    if posts != [] {
      var init := posts[..|posts| - 1];
      RecordedBound(init);
      assert posts == init + [posts[|posts| - 1]];
    }
  }

  /** In every reachable state, the POSTs whose verdict was recorded number the row's attempts, plus one
      if it was delivered, and never exceed the maximum. So the POSTs sent are exactly accounted for
      if and only if no verdict was lost. */
  lemma AttemptAccounting(cfg: Config, qs: seq<Queue>, steps: seq<Step>, i: nat, id: string)
    requires Ready(cfg) && IsTrace(cfg, qs, steps) && Initial(qs[0]) && i < |qs| && id in qs[i].intros
    ensures var row, posts := qs[i].intros[id], Sent(qs[i].sent, id);
            && Recorded(posts) == row.attempts + DeliveredCount(row) <= cfg.maxAttempts
            && (|posts| == row.attempts + DeliveredCount(row) <==> AllRecorded(posts))
            && (Live(row) ==> row.attempts < cfg.maxAttempts)
            && (row.status == Failed ==> row.attempts == cfg.maxAttempts)
            && (row.status == Queued ==> row.attempts == 0)
            && (row.deliveredAt.Some? <==> row.status == Delivered)
            && (row.nextAttemptAt.Some? <==> row.status == Retrying)
  {
    Reachable(cfg, qs, steps, i);
    RecordedBound(Sent(qs[i].sent, id));
  }

  predicate WritesSucceed(steps: seq<Step>) {
    forall k :: 0 <= k < |steps| && steps[k].Attempt? ==> steps[k].luck.written
  }

  lemma WrittenStepRecords(cfg: Config, q: Queue, s: Step, id: string)
    requires Ready(cfg) && BatchOk(q) && Enabled(cfg, q, s) && (s.Attempt? ==> s.luck.written)
    requires AllRecorded(Sent(q.sent, id))
    ensures AllRecorded(Sent(Next(cfg, q, s).sent, id))
  {
    if s.Attempt? {
      assert Due(q.batch[0].row, Unix(q.clock));
    }
  }

  lemma {:induction false} WrittenRunsRecord(cfg: Config, qs: seq<Queue>, steps: seq<Step>, i: nat, id: string)
    requires Ready(cfg) && IsTrace(cfg, qs, steps) && Initial(qs[0]) && i < |qs| && WritesSucceed(steps)
    ensures AllRecorded(Sent(qs[i].sent, id))
  {
    if i > 0 {
      WrittenRunsRecord(cfg, qs, steps, i - 1, id);
      Reachable(cfg, qs, steps, i - 1);
      assert StepAt(cfg, qs, steps, i - 1);
      WrittenStepRecords(cfg, qs[i - 1], steps[i - 1], id);
    }
  }

  /** With successful row writes, the POSTs sent for a row are its attempts, plus one if delivered. */
  lemma PostsSent(cfg: Config, qs: seq<Queue>, steps: seq<Step>, i: nat, id: string)
    requires Ready(cfg) && IsTrace(cfg, qs, steps) && Initial(qs[0]) && i < |qs| && id in qs[i].intros
    requires WritesSucceed(steps)
    ensures var row, posts := qs[i].intros[id], Sent(qs[i].sent, id);
            |posts| == row.attempts + DeliveredCount(row) <= cfg.maxAttempts
  {
    WrittenRunsRecord(cfg, qs, steps, i, id);
    AttemptAccounting(cfg, qs, steps, i, id);
  }

  // ----- Terminal rows -----

  lemma TerminalStep(cfg: Config, q: Queue, s: Step, id: string)
    requires Ready(cfg) && Inv(cfg, q) && Enabled(cfg, q, s) && id in q.intros && Terminal(q.intros[id])
    ensures var q' := Next(cfg, q, s);
            id in q'.intros && q'.intros[id] == q.intros[id] && Sent(q'.sent, id) == Sent(q.sent, id)
  {
    if s.Attempt? {
      AttemptFrame(cfg, q, s.target, s.luck, id);
      assert Due(q.batch[0].row, Unix(q.clock));
    }
  }

  /** Delivered, failed and undeliverable rows never change again, and nothing more is sent for them. */
  lemma {:induction false} TerminalIsAbsorbing(cfg: Config, qs: seq<Queue>, steps: seq<Step>, i: nat, j: nat,
                                               id: string)
    requires Ready(cfg) && IsTrace(cfg, qs, steps) && Initial(qs[0]) && i <= j < |qs|
    requires id in qs[i].intros && Terminal(qs[i].intros[id])
    ensures id in qs[j].intros && qs[j].intros[id] == qs[i].intros[id]
    ensures Sent(qs[j].sent, id) == Sent(qs[i].sent, id)
  {
    if i < j {
      TerminalIsAbsorbing(cfg, qs, steps, i, j - 1, id);
      Reachable(cfg, qs, steps, j - 1);
      assert StepAt(cfg, qs, steps, j - 1);
      TerminalStep(cfg, qs[j - 1], steps[j - 1], id);
    }
  }

  // ----- Backoff -----

  /** After a recorded failure the next POST of the row starts more than the scheduled delay later,
      less the second lost to whole-second timestamps. */
  lemma BackoffRespected(cfg: Config, qs: seq<Queue>, steps: seq<Step>, i: nat, id: string, k: nat)
    requires Ready(cfg) && IsTrace(cfg, qs, steps) && Initial(qs[0]) && i < |qs|
    requires k + 1 < |Sent(qs[i].sent, id)| && Sent(qs[i].sent, id)[k].recorded
    ensures var a, b := Sent(qs[i].sent, id)[k], Sent(qs[i].sent, id)[k + 1];
            a.attempt >= 1 && b.attempt == a.attempt + 1 && b.start > a.end + Delay(cfg, a.attempt) - SECOND
  {
    Reachable(cfg, qs, steps, i);
    assert id in qs[i].intros;
    assert Follows(cfg, Sent(qs[i].sent, id)[k], Sent(qs[i].sent, id)[k + 1]);
  }

  /** The scheduled delays after failed attempts 1 to `n`, each less the second lost to rounding. */
  function ScheduledWait(cfg: Config, n: nat): int
    requires Ready(cfg)
  {
    if n == 0 then 0 else ScheduledWait(cfg, n - 1) + Delay(cfg, n) - SECOND + 1
  }

  /** A recorded failure costs its delay and a lost write costs nothing, so the POSTs between two of a
      row's POSTs take the delays of the attempt numbers between them. */
  lemma {:induction false} ChainTakesAtLeast(cfg: Config, posts: seq<Post>, k: nat, n: nat)
    requires Ready(cfg) && k <= n < |posts| && posts[k].attempt >= 1
    requires forall i :: 0 <= i < |posts| ==> posts[i].start <= posts[i].end
    requires forall i :: 0 <= i < |posts| - 1 ==> Follows(cfg, posts[i], posts[i + 1])
    ensures posts[n].attempt >= posts[k].attempt
    ensures var wait := ScheduledWait(cfg, posts[n].attempt - 1) - ScheduledWait(cfg, posts[k].attempt - 1);
            posts[n].end - posts[k].end >= wait && (k < n ==> posts[n].start - posts[k].end >= wait)
  {
    if k < n {
      ChainTakesAtLeast(cfg, posts, k, n - 1);
      assert Follows(cfg, posts[n - 1], posts[n]);
    }
  }

  /** A row that ends failed had its last POST, number `maxAttempts`, recorded, and from the end of any
      first attempt to the start of that POST at least the whole schedule went by, whatever row writes
      were lost. If none was, it was tried exactly `maxAttempts` times. */
  lemma FailureTakesTheWholeSchedule(cfg: Config, qs: seq<Queue>, steps: seq<Step>, i: nat, id: string)
    requires Ready(cfg) && IsTrace(cfg, qs, steps) && Initial(qs[0]) && i < |qs|
    requires id in qs[i].intros && qs[i].intros[id].status == Failed
    ensures var posts := Sent(qs[i].sent, id);
            && |posts| >= cfg.maxAttempts && posts[0].attempt == 1
            && var last := posts[|posts| - 1];
               && last.recorded && !(last.reply.Reply? && 200 <= last.reply.code < 300)
               && last.attempt == cfg.maxAttempts
               && forall k :: 0 <= k < |posts| - 1 && posts[k].attempt == 1 ==>
                                last.start - posts[k].end >= ScheduledWait(cfg, cfg.maxAttempts - 1)
    ensures WritesSucceed(steps) ==> |Sent(qs[i].sent, id)| == cfg.maxAttempts
  {
    var posts := Sent(qs[i].sent, id);
    AttemptAccounting(cfg, qs, steps, i, id);
    RecordedBound(posts);
    Reachable(cfg, qs, steps, i);
    forall k | 0 <= k < |posts| - 1 && posts[k].attempt == 1
      ensures posts[|posts| - 1].start - posts[k].end >= ScheduledWait(cfg, cfg.maxAttempts - 1)
    {
      ChainTakesAtLeast(cfg, posts, k, |posts| - 1);
    }
    if WritesSucceed(steps) {
      PostsSent(cfg, qs, steps, i, id);
    }
  }

  /** With the default knobs a row that ends failed was tried at least five times, over more than the 66
      minutes of its schedule less four seconds; exactly five times if no row write was lost. */
  lemma DefaultsGiveUpAfterAnHour(cfg: Config, qs: seq<Queue>, steps: seq<Step>, i: nat, id: string)
    requires cfg.backoffs == [] && cfg.maxAttempts <= 0
    requires IsTrace(Effective(cfg), qs, steps) && Initial(qs[0]) && i < |qs|
    requires id in qs[i].intros && qs[i].intros[id].status == Failed
    ensures var posts := Sent(qs[i].sent, id);
            |posts| >= 5 && posts[|posts| - 1].start - posts[0].end > 66 * 60 * SECOND - 4 * SECOND
    ensures WritesSucceed(steps) ==> |Sent(qs[i].sent, id)| == 5
  {
    var e := Effective(cfg);
    FailureTakesTheWholeSchedule(e, qs, steps, i, id);
    assert ScheduledWait(e, 1) == Delay(e, 1) - SECOND + 1 == 60 * SECOND - SECOND + 1;
    assert ScheduledWait(e, 2) == ScheduledWait(e, 1) + 300 * SECOND - SECOND + 1;
    assert ScheduledWait(e, 3) == ScheduledWait(e, 2) + 1800 * SECOND - SECOND + 1;
    assert ScheduledWait(e, 4) == ScheduledWait(e, 3) + 1800 * SECOND - SECOND + 1;
  }

  // ----- A lost row write -----

  lemma OneRowBatch(cfg: Config, q: Queue, id: string)
    requires Ready(cfg) && q.batch == [] && q.intros.Keys == {id} && Due(q.intros[id], Unix(q.clock))
    ensures Enabled(cfg, q, Load(q.clock, [Copy(id, q.intros[id])]))
  {
    var batch := [Copy(id, q.intros[id])];
    assert batch[0].id == id && InBatch(batch, id);
  }

  /** The run prolonged by a drain that posts the one queued row and hears success. */
  lemma AcceptedDrain(cfg: Config, qs: seq<Queue>, steps: seq<Step>, id: string, t: DeliveryTarget, written: bool)
    returns (qs': seq<Queue>, steps': seq<Step>)
    requires Ready(cfg) && IsTrace(cfg, qs, steps)
    requires var q := qs[|steps|];
             q.batch == [] && q.intros.Keys == {id} && q.intros[id].attempts == 0 && Due(q.intros[id], Unix(q.clock))
    ensures IsTrace(cfg, qs', steps') && qs'[0] == qs[0]
    ensures var q, c := qs[|steps|], Copy(id, qs[|steps|].intros[id]);
            var luck := Luck(true, true, Reply(200), q.clock, q.clock, written);
            qs'[|steps'|] == Queue(AfterAttempt(cfg, q.intros, c, Some(t), luck), [],
                                   AfterSending(cfg, q.intros, q.sent, c, Some(t), luck), q.clock)
  {
    var q := qs[|steps|];
    var load := Load(q.clock, [Copy(id, q.intros[id])]);
    var attempt := Attempt(Some(t), Luck(true, true, Reply(200), q.clock, q.clock, written));
    OneRowBatch(cfg, q, id);
    var loaded := Next(cfg, q, load);
    ExtendedTrace(cfg, qs, steps, load, loaded);
    qs', steps' := qs + [loaded], steps + [load];
    ExtendedTrace(cfg, qs', steps', attempt, Next(cfg, loaded, attempt));
    qs', steps' := qs' + [Next(cfg, loaded, attempt)], steps' + [attempt];
  }

  /** A POST that succeeds while its row write is lost is sent again by the next drain: the row ends
      delivered without a charged attempt, and the same signed body was posted twice. */
  lemma LostWriteRepeatsPost(cfg: Config, id: string, request: Request, t: DeliveryTarget)
    returns (qs: seq<Queue>, steps: seq<Step>)
    requires Ready(cfg)
    ensures IsTrace(cfg, qs, steps) && Initial(qs[0])
    ensures var q := qs[|steps|];
            && id in q.intros && q.intros[id].status == Delivered && q.intros[id].attempts == 0
            && var posts := Sent(q.sent, id);
               && |posts| == 2 && posts[0].reply == posts[1].reply == Reply(200)
               && !posts[0].recorded && posts[1].recorded
               && posts[0].body == posts[1].body && posts[0].signature == posts[1].signature
  {
    var q := Queue(map[], [], map[], 0);
    var row := RowOf(request, 0);
    var submitted := Next(cfg, q, Submit(id, request, 0));
    ExtendedTrace(cfg, [q], [], Submit(id, request, 0), submitted);
    qs, steps := [q] + [submitted], [] + [Submit(id, request, 0)];
    qs, steps := AcceptedDrain(cfg, qs, steps, id, t, false);
    assert Sent(qs[|steps|].sent, id) == [PostFor(cfg, map[id := row], Copy(id, row), t,
                                                  Luck(true, true, Reply(200), 0, 0, false))];
    qs, steps := AcceptedDrain(cfg, qs, steps, id, t, true);
  }
}
