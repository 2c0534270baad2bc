/** When the delivery worker may pass over a due row for ever. */
module Starvation {
  import opened Basics
  import opened Schema
  import opened Intros
  import opened Nodes
  import opened OutboxMachine
  import opened OutboxTheorems

  // ----- Credit: the attempts a row may still use up -----

  /** How many more attempts a row may use up; a row not yet submitted has all of them. */
  function Credit(cfg: Config, intros: map<string, Intro>, id: string): int {
    if id !in intros then cfg.maxAttempts
    else if Live(intros[id]) then cfg.maxAttempts - intros[id].attempts else 0
  }

  function CreditSum(cfg: Config, intros: map<string, Intro>, ids: seq<string>): int {
    if ids == [] then 0 else Credit(cfg, intros, ids[0]) + CreditSum(cfg, intros, ids[1..])
  }

  /** An attempt that reaches a verdict: the target was looked up, the request built and the row written. */
  predicate ReachesVerdict(s: Step) {
    s.Attempt? ==> s.luck.resolved && s.luck.written && (s.target.Some? ==> s.luck.built)
  }

  lemma {:induction false} CreditSumDrops(cfg: Config, before: map<string, Intro>, after: map<string, Intro>,
                                          ids: seq<string>, id: string, spent: bool)
    requires forall o :: o in ids ==> Credit(cfg, after, o) <= Credit(cfg, before, o)
    requires spent ==> Credit(cfg, after, id) < Credit(cfg, before, id)
    ensures CreditSum(cfg, after, ids) <= CreditSum(cfg, before, ids) - if spent && id in ids then 1 else 0
  {
    if ids != [] {
      assert forall o :: o in ids[1..] ==> o in ids;
      CreditSumDrops(cfg, before, after, ids[1..], id, spent);
      assert id in ids <==> id == ids[0] || id in ids[1..];
    }
  }

  lemma {:induction false} CreditSumBounds(cfg: Config, intros: map<string, Intro>, ids: seq<string>)
    requires Ready(cfg) && forall id :: id in intros ==> RowOk(cfg, intros[id])
    ensures 0 <= CreditSum(cfg, intros, ids) <= |ids| * cfg.maxAttempts
  {
    if ids != [] {
      CreditSumBounds(cfg, intros, ids[1..]);
      assert 0 <= Credit(cfg, intros, ids[0]) <= cfg.maxAttempts;
      assert |ids| * cfg.maxAttempts == cfg.maxAttempts + |ids[1..]| * cfg.maxAttempts;
    }
  }

  lemma AttemptSpendsCredit(cfg: Config, intros: map<string, Intro>, c: Copy, target: Option<DeliveryTarget>,
                            luck: Luck)
    requires Ready(cfg) && c.id in intros && intros[c.id] == c.row && Live(c.row) && RowOk(cfg, c.row)
    ensures var after := AfterAttempt(cfg, intros, c, target, luck);
            && Credit(cfg, after, c.id) <= Credit(cfg, intros, c.id)
            && (ReachesVerdict(Attempt(target, luck)) ==> Credit(cfg, after, c.id) < Credit(cfg, intros, c.id))
  {
  }

  /** No step adds credit, and an attempt that reaches its verdict spends one of its row's. */
  lemma StepAndCredit(cfg: Config, q: Queue, s: Step, o: string)
    requires Ready(cfg) && Inv(cfg, q) && Enabled(cfg, q, s)
    ensures Credit(cfg, Next(cfg, q, s).intros, o) <= Credit(cfg, q.intros, o)
    ensures s.Attempt? && ReachesVerdict(s) && o == q.batch[0].id ==>
              Credit(cfg, Next(cfg, q, s).intros, o) < Credit(cfg, q.intros, o)
  {
    if s.Attempt? {
      var c := q.batch[0];
      assert Due(c.row, Unix(q.clock)) && q.intros[c.id] == c.row && RowOk(cfg, q.intros[c.id]);
      if o == c.id {
        AttemptSpendsCredit(cfg, q.intros, c, s.target, s.luck);
      } else {
        AttemptFrame(cfg, q, s.target, s.luck, o);
      }
    }
  }

  lemma StepSpendsCredit(cfg: Config, q: Queue, s: Step, ids: seq<string>)
    requires Ready(cfg) && Inv(cfg, q) && Enabled(cfg, q, s)
    ensures CreditSum(cfg, Next(cfg, q, s).intros, ids) <=
            CreditSum(cfg, q.intros, ids)
            - if s.Attempt? && ReachesVerdict(s) && q.batch[0].id in ids then 1 else 0
  {
    var after := Next(cfg, q, s).intros;
    forall o | o in ids
      ensures Credit(cfg, after, o) <= Credit(cfg, q.intros, o)
    {
      StepAndCredit(cfg, q, s, o);
    }
    var spent := s.Attempt? && ReachesVerdict(s);
    var id := if s.Attempt? then q.batch[0].id else "";
    StepAndCredit(cfg, q, s, id);
    CreditSumDrops(cfg, q.intros, after, ids, id, spent);
  }

  // ----- Runs that skip a row -----

  function Drains(steps: seq<Step>, i: nat): nat
    requires i <= |steps|
  {
    if i == 0 then 0 else Drains(steps, i - 1) + if steps[i - 1].Load? then 1 else 0
  }

  /** The step does not pick `id` and does not cut a drain short; an attempt reaches its verdict unless
      its row is one of `stuck`. */
  ghost predicate Skips(q: Queue, s: Step, id: string, stuck: set<string>) {
    && !s.Abandon?
    && (s.Load? ==> !InBatch(s.batch, id))
    && (s.Attempt? && |q.batch| > 0 && q.batch[0].id !in stuck ==> ReachesVerdict(s))
  }

  ghost predicate AlwaysSkipped(qs: seq<Queue>, steps: seq<Step>, id: string, stuck: set<string>) {
    |steps| <= |qs| && forall k :: 0 <= k < |steps| ==> Skips(qs[k], steps[k], id, stuck)
  }

  /** `older` lists every row that is not younger than `id`, other than `id` and the rows of `stuck`. */
  ghost predicate CoversOlder(intros: map<string, Intro>, id: string, stuck: set<string>, older: seq<string>) {
    id in intros
    && forall o :: o in intros && o != id && o !in stuck && intros[o].createdAt <= intros[id].createdAt ==> o in older
  }

  lemma {:induction false} RowsKeepTheirAge(cfg: Config, qs: seq<Queue>, steps: seq<Step>, i: nat, j: nat, id: string)
    requires Ready(cfg) && IsTrace(cfg, qs, steps) && i <= j < |qs| && id in qs[i].intros
    ensures id in qs[j].intros && qs[j].intros[id].createdAt == qs[i].intros[id].createdAt
  {
    if i < j {
      RowsKeepTheirAge(cfg, qs, steps, i, j - 1, id);
      assert StepAt(cfg, qs, steps, j - 1);
    }
  }

  /** The rows of a batch that are not among `stuck`. */
  function Moving(batch: seq<Copy>, stuck: set<string>): nat {
    if batch == [] then 0 else Moving(batch[1..], stuck) + if batch[0].id in stuck then 0 else 1
  }

  lemma {:induction false} MovingBounds(batch: seq<Copy>, stuck: set<string>)
    requires forall i, j :: 0 <= i < j < |batch| ==> batch[i].id != batch[j].id
    ensures |batch| - |stuck| <= Moving(batch, stuck) <= |batch|
  {
    if batch != [] {
      var rest := stuck - {batch[0].id};
      MovingBounds(batch[1..], stuck);
      MovingBounds(batch[1..], rest);
      MovingIgnores(batch[1..], stuck, batch[0].id);
    }
  }

  lemma {:induction false} MovingIgnores(batch: seq<Copy>, stuck: set<string>, id: string)
    requires forall i :: 0 <= i < |batch| ==> batch[i].id != id
    ensures Moving(batch, stuck - {id}) == Moving(batch, stuck)
  {
    if batch != [] {
      MovingIgnores(batch[1..], stuck, id);
    }
  }

  /** The row waits: it still reads the same and is due, and the rows in flight are `stuck` or older. */
  ghost predicate Waits(q: Queue, id: string, row: Intro, stuck: set<string>, older: seq<string>) {
    && id in q.intros && q.intros[id] == row && Due(row, Unix(q.clock))
    && forall k :: 0 <= k < |q.batch| ==> q.batch[k].id != id && (q.batch[k].id in stuck || q.batch[k].id in older)
  }

  lemma SkippedRowStep(cfg: Config, q: Queue, s: Step, id: string)
    requires Ready(cfg) && Inv(cfg, q) && Enabled(cfg, q, s)
    requires id in q.intros && Due(q.intros[id], Unix(q.clock))
    requires s.Attempt? ==> q.batch[0].id != id
    ensures var q' := Next(cfg, q, s);
            id in q'.intros && q'.intros[id] == q.intros[id] && Due(q'.intros[id], Unix(q'.clock))
  {
    UnixMonotone(q.clock, Next(cfg, q, s).clock);
    if s.Attempt? {
      assert q.batch[0].id in q.intros;
      AttemptFrame(cfg, q, s.target, s.luck, id);
    }
  }

  /** A drain that skips a due row takes a full batch, all of it not younger. */
  lemma FullBatchOfOlderRows(cfg: Config, qs: seq<Queue>, steps: seq<Step>, i: nat, id: string, stuck: set<string>,
                             older: seq<string>)
    requires Ready(cfg) && IsTrace(cfg, qs, steps) && i < |steps| && steps[i].Load?
    requires id in qs[i].intros && Due(qs[i].intros[id], Unix(qs[i].clock)) && !InBatch(steps[i].batch, id)
    requires CoversOlder(qs[|steps|].intros, id, stuck, older)
    ensures |steps[i].batch| == cfg.batchSize
    ensures forall k :: 0 <= k < |steps[i].batch| ==>
              steps[i].batch[k].id != id && (steps[i].batch[k].id in stuck || steps[i].batch[k].id in older)
  {
    assert StepAt(cfg, qs, steps, i);
    UnixMonotone(qs[i].clock, steps[i].now);
    forall k | 0 <= k < |steps[i].batch|
      ensures steps[i].batch[k].id != id && (steps[i].batch[k].id in stuck || steps[i].batch[k].id in older)
    {
      RowsKeepTheirAge(cfg, qs, steps, i, |steps|, id);
      RowsKeepTheirAge(cfg, qs, steps, i, |steps|, steps[i].batch[k].id);
    }
  }

  lemma WaitsOn(cfg: Config, qs: seq<Queue>, steps: seq<Step>, i: nat, id: string, row: Intro, stuck: set<string>,
                older: seq<string>)
    requires Ready(cfg) && IsTrace(cfg, qs, steps) && Inv(cfg, qs[0]) && qs[0].batch == [] && i < |steps|
    requires Waits(qs[i], id, row, stuck, older)
    requires AlwaysSkipped(qs, steps, id, stuck) && CoversOlder(qs[|steps|].intros, id, stuck, older)
    ensures Waits(qs[i + 1], id, row, stuck, older)
  {
    Reachable(cfg, qs, steps, i);
    assert StepAt(cfg, qs, steps, i) && Skips(qs[i], steps[i], id, stuck);
    SkippedRowStep(cfg, qs[i], steps[i], id);
    if steps[i].Load? {
      FullBatchOfOlderRows(cfg, qs, steps, i, id, stuck, older);
    }
  }

  lemma {:induction false} SkippedRowWaits(cfg: Config, qs: seq<Queue>, steps: seq<Step>, i: nat, id: string,
                                           stuck: set<string>, older: seq<string>)
    requires Ready(cfg) && IsTrace(cfg, qs, steps) && Inv(cfg, qs[0]) && qs[0].batch == [] && i < |qs|
    requires id in qs[0].intros && Due(qs[0].intros[id], Unix(qs[0].clock))
    requires AlwaysSkipped(qs, steps, id, stuck) && CoversOlder(qs[|steps|].intros, id, stuck, older)
    ensures Waits(qs[i], id, qs[0].intros[id], stuck, older)
  {
    if i > 0 {
      SkippedRowWaits(cfg, qs, steps, i - 1, id, stuck, older);
      WaitsOn(cfg, qs, steps, i - 1, id, qs[0].intros[id], stuck, older);
    }
  }

  /** Over one step of the wait, credit pays for the moving rows loaded or for the one attempted. */
  lemma StepPays(cfg: Config, q: Queue, s: Step, id: string, stuck: set<string>, older: seq<string>)
    requires Ready(cfg) && Inv(cfg, q) && Enabled(cfg, q, s) && Skips(q, s, id, stuck)
    requires s.Load? ==> |s.batch| == cfg.batchSize
    requires s.Attempt? ==> q.batch[0].id in stuck || q.batch[0].id in older
    ensures (if s.Load? then cfg.batchSize - |stuck| else 0)
            - (Moving(Next(cfg, q, s).batch, stuck) - Moving(q.batch, stuck))
            <= CreditSum(cfg, q.intros, older) - CreditSum(cfg, Next(cfg, q, s).intros, older)
  {
    StepSpendsCredit(cfg, q, s, older);
    if s.Load? {
      MovingBounds(s.batch, stuck);
    }
  }

  lemma SkippedStepPays(cfg: Config, qs: seq<Queue>, steps: seq<Step>, i: nat, id: string, stuck: set<string>,
                        older: seq<string>)
    requires Ready(cfg) && IsTrace(cfg, qs, steps) && Inv(cfg, qs[0]) && qs[0].batch == [] && i < |steps|
    requires id in qs[0].intros && Due(qs[0].intros[id], Unix(qs[0].clock))
    requires AlwaysSkipped(qs, steps, id, stuck) && CoversOlder(qs[|steps|].intros, id, stuck, older)
    ensures (if steps[i].Load? then cfg.batchSize - |stuck| else 0)
            - (Moving(qs[i + 1].batch, stuck) - Moving(qs[i].batch, stuck))
            <= CreditSum(cfg, qs[i].intros, older) - CreditSum(cfg, qs[i + 1].intros, older)
  {
    Reachable(cfg, qs, steps, i);
    assert StepAt(cfg, qs, steps, i) && Skips(qs[i], steps[i], id, stuck);
    SkippedRowWaits(cfg, qs, steps, i, id, stuck, older);
    if steps[i].Load? {
      FullBatchOfOlderRows(cfg, qs, steps, i, id, stuck, older);
    }
    StepPays(cfg, qs[i], steps[i], id, stuck, older);
  }

  /** `size` for every drain among the first `i` steps. */
  function Taken(steps: seq<Step>, i: nat, size: int): int
    requires i <= |steps|
  {
    if i == 0 then 0 else Taken(steps, i - 1, size) + if steps[i - 1].Load? then size else 0
  }

  lemma {:induction false} TakenPerDrain(steps: seq<Step>, i: nat, size: int)
    requires i <= |steps|
    ensures Taken(steps, i, size) == Drains(steps, i) * size
  {
    if i > 0 {
      TakenPerDrain(steps, i - 1, size);
    }
  }

  lemma {:induction false} DrainsSpendCredit(cfg: Config, qs: seq<Queue>, steps: seq<Step>, i: nat, id: string,
                                             stuck: set<string>, older: seq<string>)
    requires Ready(cfg) && IsTrace(cfg, qs, steps) && Inv(cfg, qs[0]) && qs[0].batch == [] && i < |qs|
    requires id in qs[0].intros && Due(qs[0].intros[id], Unix(qs[0].clock))
    requires AlwaysSkipped(qs, steps, id, stuck) && CoversOlder(qs[|steps|].intros, id, stuck, older)
    ensures Taken(steps, i, cfg.batchSize - |stuck|) - Moving(qs[i].batch, stuck)
            <= CreditSum(cfg, qs[0].intros, older) - CreditSum(cfg, qs[i].intros, older)
  {
    if i > 0 {
      DrainsSpendCredit(cfg, qs, steps, i - 1, id, stuck, older);
      SkippedStepPays(cfg, qs, steps, i - 1, id, stuck, older);
    }
  }

  lemma CreditIsLimited(cfg: Config, q: Queue, q': Queue, ids: seq<string>)
    requires Ready(cfg) && Inv(cfg, q) && Inv(cfg, q')
    ensures CreditSum(cfg, q.intros, ids) - CreditSum(cfg, q'.intros, ids) <= |ids| * cfg.maxAttempts
  {
    CreditSumBounds(cfg, q.intros, ids);
    CreditSumBounds(cfg, q'.intros, ids);
  }

  /** No starvation: however the rows of `stuck` fare, if every other processed row reaches a verdict, the
      drains that skip a due row, times the room the stuck rows leave in a batch, are at most p times
      `maxAttempts`, where p counts the other rows not younger than it (plus the batch still in flight). */
  lemma NoStarvation(cfg: Config, qs: seq<Queue>, steps: seq<Step>, id: string, stuck: set<string>, older: seq<string>)
    requires Ready(cfg) && IsTrace(cfg, qs, steps) && Inv(cfg, qs[0]) && qs[0].batch == []
    requires id in qs[0].intros && Due(qs[0].intros[id], Unix(qs[0].clock))
    requires AlwaysSkipped(qs, steps, id, stuck) && CoversOlder(qs[|steps|].intros, id, stuck, older)
    ensures Drains(steps, |steps|) * (cfg.batchSize - |stuck|)
            <= |older| * cfg.maxAttempts + |qs[|steps|].batch|
  {
    DrainsSpendCredit(cfg, qs, steps, |steps|, id, stuck, older);
    Reachable(cfg, qs, steps, |steps|);
    CreditIsLimited(cfg, qs[0], qs[|steps|], older);
    MovingBounds(qs[|steps|].batch, stuck);
    TakenPerDrain(steps, |steps|, cfg.batchSize - |stuck|);
  }

  // ----- Enough stuck rows starve a younger one -----

  /** `stuck` are due rows, other than `id` and not younger. */
  ghost predicate Ahead(q: Queue, id: string, stuck: set<string>) {
    && id in q.intros && id !in stuck
    && forall o :: o in stuck ==>
                     && o in q.intros && Due(q.intros[o], Unix(q.clock))
                     && q.intros[o].createdAt <= q.intros[id].createdAt
  }

  /** The drain query has an answer in every state. */
  lemma {:induction false} PendingBatch(intros: map<string, Intro>, now: int, limit: nat) returns (batch: seq<Copy>)
    ensures IsPendingBatch(intros, now, limit, batch)
  {
    batch := [];
    if limit > 0 {
      batch := PendingBatch(intros, now, limit - 1);
      var rest := set o | o in intros && Due(intros[o], now) && !InBatch(batch, o);
      if rest != {} {
        var oldest := OldestExists(intros, rest);
        OneMoreRow(intros, now, limit, batch, oldest);
        batch := batch + [Copy(oldest, intros[oldest])];
      } else {
        assert forall o :: o in intros && Due(intros[o], now) && !InBatch(batch, o) ==> o in rest;
      }
    }
  }

  /** A batch holds as many different rows as it has entries. */
  lemma {:induction false} BatchIds(batch: seq<Copy>) returns (ids: set<string>)
    requires forall i, j :: 0 <= i < j < |batch| ==> batch[i].id != batch[j].id
    ensures |ids| == |batch| && forall o :: o in ids <==> InBatch(batch, o)
  {
    ids := {};
    if batch != [] {
      var last := |batch| - 1;
      var rest := BatchIds(batch[..last]);
      assert batch[last].id !in rest;
      InBatchAppend(batch[..last], batch[last]);
      assert batch[..last] + [batch[last]] == batch;
      ids := rest + {batch[last].id};
    }
  }

  /** If enough rows are ahead of `id`, the oldest due rows among the others are not younger than it. */
  lemma OthersComeFirst(q: Queue, id: string, stuck: set<string>, limit: nat, batch: seq<Copy>)
    requires Ahead(q, id, stuck) && |stuck| >= limit
    requires IsPendingBatch(q.intros - {id}, Unix(q.clock), limit, batch)
    ensures |batch| == limit
    ensures forall i :: 0 <= i < |batch| ==> batch[i].row.createdAt <= q.intros[id].createdAt
  {
    var ids := BatchIds(batch);
    if stuck <= ids {
      SubsetSize(stuck, ids);
      forall i | 0 <= i < |batch|
        ensures batch[i].row.createdAt <= q.intros[id].createdAt
      {
        assert InBatch(batch, batch[i].id);
        assert batch[i].id in stuck;
      }
    } else {
      var s :| s in stuck && s !in ids;
      assert s in q.intros - {id} && !InBatch(batch, s);
    }
  }

  lemma SubsetSize(a: set<string>, b: set<string>)
    requires a <= b
    ensures |a| <= |b| && (|a| == |b| ==> a == b)
  {
    assert b == a + (b - a);
  }

  /** The drain query may pass over `id` if enough rows are ahead of it. */
  lemma BatchWithout(q: Queue, id: string, stuck: set<string>, limit: nat) returns (batch: seq<Copy>)
    requires Ahead(q, id, stuck) && |stuck| >= limit
    ensures IsPendingBatch(q.intros, Unix(q.clock), limit, batch) && !InBatch(batch, id)
  {
    batch := PendingBatch(q.intros - {id}, Unix(q.clock), limit);
    OthersComeFirst(q, id, stuck, limit, batch);
  }

  /** What happens to the head of the batch in a starving run: the request of a stuck row cannot be
      built, and any other row turns out to have no target. */
  function StarvingAttempt(q: Queue, stuck: set<string>): Step
    requires |q.batch| > 0
  {
    if q.batch[0].id in stuck
    then Attempt(Some(DeliveryTarget("node", "%", "secret")), Luck(true, false, NoReply(""), q.clock, q.clock, true))
    else Attempt(None, Luck(true, true, NoReply(""), q.clock, q.clock, true))
  }

  /** `id` and the stuck rows in front of it read as they do in `q`. */
  ghost predicate StillAhead(q: Queue, q': Queue, id: string, stuck: set<string>) {
    && q'.clock == q.clock
    && forall o :: o in stuck + {id} ==> o in q.intros && o in q'.intros && q'.intros[o] == q.intros[o]
  }

  lemma StarvingAttemptEnabled(cfg: Config, q: Queue, id: string, stuck: set<string>)
    requires Ready(cfg) && Inv(cfg, q) && |q.batch| > 0
    ensures Enabled(cfg, q, StarvingAttempt(q, stuck)) && Skips(q, StarvingAttempt(q, stuck), id, stuck)
  {
    assert q.intros[q.batch[0].id] == q.batch[0].row && RowOk(cfg, q.intros[q.batch[0].id]);
  }

  /** The stuck rows stay as they are, and `id` is not among the rows attempted. */
  lemma StarvingAttemptKeeps(cfg: Config, q: Queue, id: string, stuck: set<string>, o: string)
    requires Ready(cfg) && Inv(cfg, q) && |q.batch| > 0 && Enabled(cfg, q, StarvingAttempt(q, stuck))
    requires !InBatch(q.batch, id) && o in stuck + {id} && o in q.intros
    ensures var q' := Next(cfg, q, StarvingAttempt(q, stuck));
            q'.clock == q.clock && o in q'.intros && q'.intros[o] == q.intros[o]
  {
    var s := StarvingAttempt(q, stuck);
    assert q.batch[0].id in q.intros && q.batch[0].id != id;
    AttemptFrame(cfg, q, s.target, s.luck, o);
  }

  lemma StarvingAttemptIsFine(cfg: Config, q0: Queue, q: Queue, id: string, stuck: set<string>)
    requires Ready(cfg) && Inv(cfg, q) && |q.batch| > 0 && StillAhead(q0, q, id, stuck) && !InBatch(q.batch, id)
    ensures var s := StarvingAttempt(q, stuck);
            && Enabled(cfg, q, s) && Skips(q, s, id, stuck)
            && StillAhead(q0, Next(cfg, q, s), id, stuck) && !InBatch(Next(cfg, q, s).batch, id)
  {
    StarvingAttemptEnabled(cfg, q, id, stuck);
    var q' := Next(cfg, q, StarvingAttempt(q, stuck));
    StarvingAttemptKeeps(cfg, q, id, stuck, id);
    forall o | o in stuck + {id}
      ensures o in q'.intros && q'.intros[o] == q0.intros[o]
    {
      StarvingAttemptKeeps(cfg, q, id, stuck, o);
    }
    forall i | 0 <= i < |q'.batch|
      ensures q'.batch[i].id != id
    {
      assert q'.batch[i] == q.batch[i + 1];
    }
  }

  lemma DrainsAppend(steps: seq<Step>, s: Step)
    ensures Drains(steps + [s], |steps| + 1) == Drains(steps, |steps|) + if s.Load? then 1 else 0
  {
    DrainsPrefix(steps, [s], |steps|);
  }

  lemma {:induction false} DrainsPrefix(steps: seq<Step>, more: seq<Step>, i: nat)
    requires i <= |steps|
    ensures Drains(steps + more, i) == Drains(steps, i)
  {
    if i > 0 {
      DrainsPrefix(steps, more, i - 1);
    }
  }

  /** A run of `drains` drains from `q0` that all skip `id`, with the stuck rows still in front of it. */
  ghost predicate StarvingRun(cfg: Config, q0: Queue, qs: seq<Queue>, steps: seq<Step>, id: string, stuck: set<string>,
                              drains: nat)
    requires Ready(cfg)
  {
    && IsTrace(cfg, qs, steps) && qs[0] == q0 && AlwaysSkipped(qs, steps, id, stuck)
    && Drains(steps, |steps|) == drains
    && StillAhead(q0, qs[|steps|], id, stuck) && !InBatch(qs[|steps|].batch, id)
  }

  lemma LongerStarvingRun(cfg: Config, q0: Queue, qs: seq<Queue>, steps: seq<Step>, id: string, stuck: set<string>,
                          drains: nat, s: Step)
    returns (qs': seq<Queue>, steps': seq<Step>)
    requires Ready(cfg) && StarvingRun(cfg, q0, qs, steps, id, stuck, drains)
    requires var q := qs[|steps|];
             && Enabled(cfg, q, s) && Skips(q, s, id, stuck)
             && StillAhead(q0, Next(cfg, q, s), id, stuck) && !InBatch(Next(cfg, q, s).batch, id)
    ensures StarvingRun(cfg, q0, qs', steps', id, stuck, drains + if s.Load? then 1 else 0)
    ensures |steps'| == |steps| + 1 && qs'[|steps'|] == Next(cfg, qs[|steps|], s)
  {
    var q := qs[|steps|];
    ExtendedTrace(cfg, qs, steps, s, Next(cfg, q, s));
    DrainsAppend(steps, s);
    qs', steps' := qs + [Next(cfg, q, s)], steps + [s];
    forall k | 0 <= k < |steps'|
      ensures Skips(qs'[k], steps'[k], id, stuck)
    {
      if k < |steps| {
        assert Skips(qs[k], steps[k], id, stuck);
      }
    }
  }

  lemma {:induction false} WorkedThrough(cfg: Config, q0: Queue, qs: seq<Queue>, steps: seq<Step>, id: string,
                                         stuck: set<string>, drains: nat)
    returns (qs': seq<Queue>, steps': seq<Step>)
    requires Ready(cfg) && Inv(cfg, q0) && Ahead(q0, id, stuck) && StarvingRun(cfg, q0, qs, steps, id, stuck, drains)
    ensures StarvingRun(cfg, q0, qs', steps', id, stuck, drains) && qs'[|steps'|].batch == []
    decreases |qs[|steps|].batch|
  {
    if qs[|steps|].batch == [] {
      qs', steps' := qs, steps;
    } else {
      Reachable(cfg, qs, steps, |steps|);
      StarvingAttemptIsFine(cfg, q0, qs[|steps|], id, stuck);
      qs', steps' := LongerStarvingRun(cfg, q0, qs, steps, id, stuck, drains, StarvingAttempt(qs[|steps|], stuck));
      qs', steps' := WorkedThrough(cfg, q0, qs', steps', id, stuck, drains);
    }
  }

  /** Rows whose request cannot be built starve a younger due row once they fill a batch: from every state
      of the queue, for every n, some run of n drains skips the row, although every other processed row
      reaches a verdict. */
  lemma {:induction false} UnbuildableRequestsStarve(cfg: Config, q: Queue, id: string, stuck: set<string>, n: nat)
    returns (qs: seq<Queue>, steps: seq<Step>)
    requires Ready(cfg) && Inv(cfg, q) && q.batch == [] && Ahead(q, id, stuck) && |stuck| >= cfg.batchSize
    ensures StarvingRun(cfg, q, qs, steps, id, stuck, n) && qs[|steps|].batch == []
  {
    if n == 0 {
      qs, steps := [q], [];
    } else {
      qs, steps := UnbuildableRequestsStarve(cfg, q, id, stuck, n - 1);
      var last := qs[|steps|];
      var batch := BatchWithout(last, id, stuck, cfg.batchSize);
      qs, steps := LongerStarvingRun(cfg, q, qs, steps, id, stuck, n - 1, Load(last.clock, batch));
      qs, steps := WorkedThrough(cfg, q, qs, steps, id, stuck, n);
    }
  }

  // ----- The exact condition -----

  ghost predicate CanSkip(cfg: Config, q: Queue, id: string, stuck: set<string>, n: nat)
    requires Ready(cfg)
  {
    exists qs, steps :: SkipsFor(cfg, q, id, stuck, n, qs, steps)
  }

  /** A run of `n` drains from `q` that all skip `id`, in which only the rows of `stuck` miss verdicts. */
  ghost predicate SkipsFor(cfg: Config, q: Queue, id: string, stuck: set<string>, n: nat, qs: seq<Queue>,
                           steps: seq<Step>)
    requires Ready(cfg)
  {
    IsTrace(cfg, qs, steps) && qs[0] == q && AlwaysSkipped(qs, steps, id, stuck) && Drains(steps, |steps|) == n
  }

  lemma {:induction false} Listed(ids: set<string>) returns (list: seq<string>)
    ensures forall o :: o in ids ==> o in list
    decreases ids
  {
    list := [];
    if ids != {} {
      var o :| o in ids;
      list := Listed(ids - {o});
      list := list + [o];
    }
  }

  /** Rows submitted during a run are not older than the clock it started with. */
  lemma {:induction false} NewRowsAreYoung(cfg: Config, qs: seq<Queue>, steps: seq<Step>, i: nat, o: string)
    requires Ready(cfg) && IsTrace(cfg, qs, steps) && i < |qs| && o in qs[i].intros
    ensures o in qs[0].intros || qs[i].intros[o].createdAt >= Unix(qs[0].clock)
  {
    if i > 0 {
      assert StepAt(cfg, qs, steps, i - 1);
      if o in qs[i - 1].intros {
        NewRowsAreYoung(cfg, qs, steps, i - 1, o);
        RowsKeepTheirAge(cfg, qs, steps, i - 1, i, o);
      } else {
        ClockGrows(cfg, qs, steps, i - 1);
        UnixMonotone(qs[0].clock, steps[i - 1].now);
      }
    }
  }

  lemma {:induction false} ClockGrows(cfg: Config, qs: seq<Queue>, steps: seq<Step>, i: nat)
    requires Ready(cfg) && IsTrace(cfg, qs, steps) && i < |qs|
    ensures qs[0].clock <= qs[i].clock
  {
    if i > 0 {
      ClockGrows(cfg, qs, steps, i - 1);
      assert StepAt(cfg, qs, steps, i - 1);
    }
  }

  /** With room left in the batch, the number of drains that skip a row is bounded. */
  lemma RoomBoundsSkips(cfg: Config, q: Queue, id: string, stuck: set<string>) returns (n: nat)
    requires Ready(cfg) && Inv(cfg, q) && q.batch == []
    requires id in q.intros && Due(q.intros[id], Unix(q.clock)) && q.intros[id].createdAt < Unix(q.clock)
    requires |stuck| < cfg.batchSize
    ensures !CanSkip(cfg, q, id, stuck, n)
  {
    var older := Listed(q.intros.Keys);
    n := |older| * cfg.maxAttempts + cfg.batchSize + 1;
    forall qs, steps
      ensures !SkipsFor(cfg, q, id, stuck, n, qs, steps)
    {
      if SkipsFor(cfg, q, id, stuck, n, qs, steps) {
        SkipsAreFew(cfg, q, id, stuck, older, n, qs, steps);
      }
    }
  }

  lemma SkipsAreFew(cfg: Config, q: Queue, id: string, stuck: set<string>, older: seq<string>, n: nat,
                    qs: seq<Queue>, steps: seq<Step>)
    requires Ready(cfg) && Inv(cfg, q) && q.batch == [] && |stuck| < cfg.batchSize
    requires id in q.intros && Due(q.intros[id], Unix(q.clock)) && q.intros[id].createdAt < Unix(q.clock)
    requires forall o :: o in q.intros ==> o in older
    requires SkipsFor(cfg, q, id, stuck, n, qs, steps)
    ensures n <= |older| * cfg.maxAttempts + cfg.batchSize
  {
    OlderRowsWereThere(cfg, qs, steps, id, stuck, older);
    NoStarvation(cfg, qs, steps, id, stuck, older);
    BatchFits(cfg, qs, steps, |steps|);
    TimesRoom(n, cfg.batchSize - |stuck|);
  }

  lemma TimesRoom(n: nat, room: int)
    requires room >= 1
    ensures n <= n * room
  {
  }

  lemma OlderRowsWereThere(cfg: Config, qs: seq<Queue>, steps: seq<Step>, id: string, stuck: set<string>,
                           older: seq<string>)
    requires Ready(cfg) && IsTrace(cfg, qs, steps)
    requires id in qs[0].intros && qs[0].intros[id].createdAt < Unix(qs[0].clock)
    requires forall o :: o in qs[0].intros ==> o in older
    ensures CoversOlder(qs[|steps|].intros, id, stuck, older)
  {
    RowsKeepTheirAge(cfg, qs, steps, 0, |steps|, id);
    forall o | o in qs[|steps|].intros && qs[|steps|].intros[o].createdAt <= qs[|steps|].intros[id].createdAt
      ensures o in older
    {
      NewRowsAreYoung(cfg, qs, steps, |steps|, o);
    }
  }

  lemma {:induction false} BatchFits(cfg: Config, qs: seq<Queue>, steps: seq<Step>, i: nat)
    requires Ready(cfg) && IsTrace(cfg, qs, steps) && qs[0].batch == [] && i < |qs|
    ensures |qs[i].batch| <= cfg.batchSize
  {
    if i > 0 {
      BatchFits(cfg, qs, steps, i - 1);
      assert StepAt(cfg, qs, steps, i - 1);
    }
  }

  /** A due row can be starved for ever by a set of due rows in front of it, whatever happens to their
      requests, if and only if those rows fill a batch. */
  lemma StarvesIff(cfg: Config, q: Queue, id: string, stuck: set<string>)
    requires Ready(cfg) && Inv(cfg, q) && q.batch == [] && Ahead(q, id, stuck)
    requires Due(q.intros[id], Unix(q.clock)) && q.intros[id].createdAt < Unix(q.clock)
    ensures (forall n: nat :: CanSkip(cfg, q, id, stuck, n)) <==> |stuck| >= cfg.batchSize
  {
    if |stuck| >= cfg.batchSize {
      forall n: nat
        ensures CanSkip(cfg, q, id, stuck, n)
      {
        var qs, steps := UnbuildableRequestsStarve(cfg, q, id, stuck, n);
        assert SkipsFor(cfg, q, id, stuck, n, qs, steps);
      }
    } else {
      var n := RoomBoundsSkips(cfg, q, id, stuck);
    }
  }

  /** The worker runs with the default batch: it takes thirty-two such rows to starve one. */
  lemma DefaultBatchStarvesIff(cfg: Config, q: Queue, id: string, stuck: set<string>)
    requires cfg.batchSize <= 0 && Inv(Effective(cfg), q) && q.batch == [] && Ahead(q, id, stuck)
    requires Due(q.intros[id], Unix(q.clock)) && q.intros[id].createdAt < Unix(q.clock)
    ensures (forall n: nat :: CanSkip(Effective(cfg), q, id, stuck, n)) <==> |stuck| >= 32
  {
    StarvesIff(Effective(cfg), q, id, stuck);
  }
}
