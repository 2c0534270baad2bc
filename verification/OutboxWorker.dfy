/** The delivery worker itself. Its methods run on the database; each is tied to the state machine. */
module OutboxWorker {
  import opened Basics
  import opened Schema
  import opened Intros
  import opened Nodes
  import opened OutboxMachine
  import opened OutboxTheorems

  class Worker {
    const db: Database
    const cfg: Config
    ghost var sent: map<string, seq<Post>>

    constructor (db: Database, cfg: Config)
      ensures this.db == db && this.cfg == Effective(cfg) && Ready(this.cfg) && sent == map[]
    {
      this.db, this.cfg, this.sent := db, Effective(cfg), map[];
    }

    /** Records a failed POST: retry after the scheduled delay, or give up at the attempt limit. */
    method ScheduleOrFail(c: Copy, luck: Luck)
      requires Ready(cfg) && c.row.attempts >= 0
      modifies db`intros
      ensures db.intros ==
              if luck.written && c.id in old(db.intros) && Live(old(db.intros)[c.id])
              then old(db.intros)[c.id := AfterFailure(cfg, old(db.intros)[c.id], c, luck)]
              else old(db.intros)
    {
      var attemptNumber := c.row.attempts + 1;
      if attemptNumber >= cfg.maxAttempts {
        var _ := MarkIntroFailed(db, c.id, ErrorOf(luck.reply), luck.written);
        return;
      }
      var delay := cfg.backoffs[|cfg.backoffs| - 1];
      if attemptNumber - 1 < |cfg.backoffs| {
        delay := cfg.backoffs[attemptNumber - 1];
      }
      var _ := MarkIntroRetrying(db, c.id, ErrorOf(luck.reply), Unix(luck.end + delay), luck.written);
    }

    /** One delivery attempt for the batch copy `c`. The target is looked up afresh. */
    method ProcessOne(c: Copy, luck: Luck) returns (target: Option<DeliveryTarget>)
      requires Ready(cfg) && c.row.attempts >= 0
      modifies this, db`intros
      ensures luck.resolved ==> IsDeliveryTarget(db.nodes, c.row.nodeId, target)
      ensures db.intros == AfterAttempt(cfg, old(db.intros), c, target, luck)
      ensures sent == AfterSending(cfg, old(db.intros), old(sent), c, target, luck)
    {
      target := None;
      if !luck.resolved { return; }
      target := ResolveDeliveryTarget(db, c.row.nodeId);
      if target.None? {
        var _ := MarkIntroUndeliverable(db, c.id, luck.written);
        return;
      }
      if !luck.built { return; }
      sent := sent[c.id := Sent(sent, c.id) + [PostFor(cfg, db.intros, c, target.value, luck)]];
      if Accepted(luck.reply) {
        var _ := MarkIntroDelivered(db, c.id, Unix(luck.end), luck.written);
      } else {
        ScheduleOrFail(c, luck);
      }
    }

    /** Processes the head of a drain's remaining batch and prolongs the drain's run by that attempt. */
    method AttemptHead(batch: seq<Copy>, lucks: seq<Luck>, i: nat, ghost q: Queue,
                       ghost qs: seq<Queue>, ghost steps: seq<Step>)
      returns (ghost qs': seq<Queue>, ghost steps': seq<Step>)
      requires Ready(cfg) && i < |batch| && i < |lucks| && |steps| == i + 1 && lucks[i].start <= lucks[i].end
      requires IsDrain(cfg, db.nodes, q, lucks, qs, steps) && OutboxMachine.Inv(cfg, q)
      requires db.intros == qs[|steps|].intros && sent == qs[|steps|].sent && qs[|steps|].clock <= lucks[i].start
      requires qs[|steps|].batch == batch[i..]
      modifies this, db`intros
      ensures IsDrain(cfg, db.nodes, q, lucks, qs', steps')
      ensures |steps'| == i + 2 && steps'[0] == steps[0]
      ensures forall k :: 0 <= k < i + 2 ==> !steps'[k].Abandon? || (k <= i && steps[k].Abandon?)
      ensures qs'[i + 2] == Queue(db.intros, batch[i + 1..], sent, lucks[i].end)
    {
      HeadIsLive(cfg, qs, steps);
      RestOfBatch(batch, i);
      var target := ProcessOne(batch[i], lucks[i]);
      qs', steps' := ProlongedDrain(cfg, db.nodes, q, lucks, qs, steps, Attempt(target, lucks[i]));
    }

    /** One drain: load a batch once and attempt its rows in order, until the context is cancelled
        before row `cancelled`; if the load fails nothing happens. The drain is a run of the state machine,
        so every theorem about runs applies to it; each target was the answer of a fresh lookup. */
    method Drain(now: int, loads: bool, lucks: seq<Luck>, cancelled: nat)
      returns (ghost qs: seq<Queue>, ghost steps: seq<Step>)
      requires Ready(cfg) && OutboxMachine.Inv(cfg, Queue(db.intros, [], sent, now))
      requires |lucks| >= cfg.batchSize
      requires forall i :: 0 <= i < |lucks| ==> ClockBefore(lucks, now, i) <= lucks[i].start <= lucks[i].end
      modifies this, db`intros
      ensures |qs| == |steps| + 1 && qs[0] == Queue(old(db.intros), [], old(sent), now)
      ensures !loads ==> steps == []
      ensures loads ==> IsDrain(cfg, db.nodes, qs[0], lucks, qs, steps)
      ensures loads ==> steps[0].now == now
      ensures loads ==> |steps| == if |steps[0].batch| <= cancelled then 1 + |steps[0].batch| else 2 + cancelled
      ensures db.intros == qs[|steps|].intros && sent == qs[|steps|].sent && qs[|steps|].batch == []
      ensures forall k :: 0 <= k < |steps| ==> steps[k].Abandon? ==> k == cancelled + 1
    {
      ghost var q := Queue(db.intros, [], sent, now);
      var answer := PendingIntroductionRequests(db, Unix(now), cfg.batchSize, loads);
      if answer.None? { return [q], []; }
      var batch := answer.value;
      qs, steps := LoadedDrain(cfg, db.nodes, q, lucks, now, batch);
      var i := 0;
      while i < |batch|
        invariant 0 <= i <= |batch| <= cfg.batchSize && |steps| == i + 1
        invariant IsDrain(cfg, db.nodes, q, lucks, qs, steps) && steps[0] == Load(now, batch)
        invariant qs[|steps|] == Queue(db.intros, batch[i..], sent, ClockBefore(lucks, now, i))
        invariant i <= cancelled && forall k :: 0 <= k < |steps| ==> !steps[k].Abandon?
      {
        if i == cancelled {
          qs, steps := ProlongedDrain(cfg, db.nodes, q, lucks, qs, steps, Abandon);
          return;
        }
        assert ClockBefore(lucks, now, i) <= lucks[i].start;
        qs, steps := AttemptHead(batch, lucks, i, q, qs, steps);
        i := i + 1;
      }
    }
  }

  /** The clock when the attempt number `i` of a drain begins. */
  function ClockBefore(lucks: seq<Luck>, now: int, i: nat): int
    requires i <= |lucks|
  {
    if i == 0 then now else lucks[i - 1].end
  }

  /** A run that loads a batch from `q` and then attempts its rows in order, each with a freshly
      looked-up target, or abandons the rest. */
  ghost predicate IsDrain(cfg: Config, nodes: map<string, Node>, q: Queue, lucks: seq<Luck>,
                          qs: seq<Queue>, steps: seq<Step>)
    requires Ready(cfg)
  {
    && IsTrace(cfg, qs, steps) && qs[0] == q && |steps| > 0 && steps[0].Load?
    && forall k :: 1 <= k < |steps| ==> DrainStep(nodes, qs[k], steps[k], lucks, k - 1)
  }

  ghost predicate DrainStep(nodes: map<string, Node>, q: Queue, s: Step, lucks: seq<Luck>, i: nat) {
    s.Abandon?
    || (s.Attempt? && i < |lucks| && s.luck == lucks[i] && |q.batch| > 0
        && (s.luck.resolved ==> IsDeliveryTarget(nodes, q.batch[0].row.nodeId, s.target)))
  }

  lemma LoadedDrain(cfg: Config, nodes: map<string, Node>, q: Queue, lucks: seq<Luck>, now: int, batch: seq<Copy>)
    returns (qs: seq<Queue>, steps: seq<Step>)
    requires Ready(cfg) && Enabled(cfg, q, Load(now, batch))
    ensures IsDrain(cfg, nodes, q, lucks, qs, steps)
    ensures steps == [Load(now, batch)] && qs == [q, Next(cfg, q, Load(now, batch))]
  {
    ExtendedTrace(cfg, [q], [], Load(now, batch), Next(cfg, q, Load(now, batch)));
    qs, steps := [q] + [Next(cfg, q, Load(now, batch))], [] + [Load(now, batch)];
  }

  lemma ProlongedDrain(cfg: Config, nodes: map<string, Node>, q: Queue, lucks: seq<Luck>,
                       qs: seq<Queue>, steps: seq<Step>, s: Step)
    returns (qs': seq<Queue>, steps': seq<Step>)
    requires Ready(cfg) && IsDrain(cfg, nodes, q, lucks, qs, steps)
    requires Enabled(cfg, qs[|steps|], s) && DrainStep(nodes, qs[|steps|], s, lucks, |steps| - 1)
    ensures IsDrain(cfg, nodes, q, lucks, qs', steps')
    ensures steps' == steps + [s] && qs' == qs + [Next(cfg, qs[|steps|], s)]
  {
    ExtendedTrace(cfg, qs, steps, s, Next(cfg, qs[|steps|], s));
    qs', steps' := qs + [Next(cfg, qs[|steps|], s)], steps + [s];
  }

  lemma HeadIsLive(cfg: Config, qs: seq<Queue>, steps: seq<Step>)
    requires Ready(cfg) && IsTrace(cfg, qs, steps) && OutboxMachine.Inv(cfg, qs[0]) && |qs[|steps|].batch| > 0
    ensures qs[|steps|].batch[0].row.attempts >= 0
  {
    Reachable(cfg, qs, steps, |steps|);
    var q := qs[|steps|];
    assert q.intros[q.batch[0].id] == q.batch[0].row && RowOk(cfg, q.intros[q.batch[0].id]);
  }

  lemma RestOfBatch(batch: seq<Copy>, i: nat)
    requires i < |batch|
    ensures batch[i..][0] == batch[i] && batch[i..][1..] == batch[i + 1..]
  {
  }
}
