/** What a delivery means: which answers deliver a row, what every other one costs it, when it is due again, and
    what was posted. Everything is stated on the answers and on the fields of rows and POSTs. */
module OutboxDelivery {
  import opened Basics
  import opened Schema
  import opened Intros
  import opened Nodes
  import opened OutboxMachine
  import opened OutboxTheorems

  // ----- One attempt -----

  /** What the row says about an answer other than success. */
  function Complaint(reply: Reply): IntroError {
    match reply
    case NoReply(message) => HttpError(message)
    case Reply(code) => NonOk(code)
  }

  /** The row after a failed attempt that ended at `end`: failed at the limit, otherwise due again after the
      schedule's entry for this attempt, or after its last one. */
  ghost predicate Charged(cfg: Config, row: Intro, row': Intro, reply: Reply, end: int)
    requires Ready(cfg) && row.attempts >= 0
  {
    && row'.attempts == row.attempts + 1 && row'.lastError == Some(Complaint(reply))
    && (if row.attempts + 1 >= cfg.maxAttempts then row'.status == Failed && row'.nextAttemptAt.None?
        else
          && row'.status == Retrying
          && row'.nextAttemptAt ==
             Some(Unix(end + if row.attempts < |cfg.backoffs| then cfg.backoffs[row.attempts]
                             else cfg.backoffs[|cfg.backoffs| - 1])))
    && row' == row.(attempts := row'.attempts, lastError := row'.lastError, status := row'.status,
                    nextAttemptAt := row'.nextAttemptAt)
  }

  /** Every case of an attempt on a row that has not changed since its batch was loaded. Without an answer of the
      lookup, without a request or without a row write the row stays; without a target it becomes undeliverable;
      an answer from 200 to 299 delivers it, and any other answer, or none, is charged. */
  lemma AttemptOutcome(cfg: Config, q: Queue, target: Option<DeliveryTarget>, luck: Luck)
    requires Ready(cfg) && Enabled(cfg, q, Attempt(target, luck))
    requires var c := q.batch[0]; c.id in q.intros && q.intros[c.id] == c.row && Live(c.row)
    ensures var c, q' := q.batch[0], Next(cfg, q, Attempt(target, luck));
            && c.id in q'.intros && q'.batch == q.batch[1..] && q'.clock == luck.end
            && (forall id :: id != c.id ==> (id in q'.intros <==> id in q.intros))
            && (forall id :: id != c.id && id in q.intros ==> q'.intros[id] == q.intros[id])
            && var row, row' := q.intros[c.id], q'.intros[c.id];
               if !luck.resolved || !luck.written then row' == row
               else if target.None? then
                 row' == row.(status := Undeliverable, lastError := Some(NoTarget), nextAttemptAt := None)
               else if !luck.built then row' == row
               else if luck.reply.Reply? && 200 <= luck.reply.code < 300 then
                 row' == row.(status := Delivered, deliveredAt := Some(Unix(luck.end)), lastError := None,
                              nextAttemptAt := None)
               else Charged(cfg, row, row', luck.reply, luck.end)
  {
  }

  /** A POST leaves the worker exactly when the lookup found a target and the request could be built. Its body
      holds the row's identifier, candidate, recruiter and time of submission, and is signed with the target's
      secret. */
  lemma PostOutcome(cfg: Config, q: Queue, target: Option<DeliveryTarget>, luck: Luck)
    requires Ready(cfg) && Enabled(cfg, q, Attempt(target, luck))
    requires var c := q.batch[0]; c.id in q.intros && q.intros[c.id] == c.row && Live(c.row)
    ensures var c, q' := q.batch[0], Next(cfg, q, Attempt(target, luck));
            && (forall id :: id != c.id ==> Sent(q'.sent, id) == Sent(q.sent, id))
            && if !luck.resolved || target.None? || !luck.built then Sent(q'.sent, c.id) == Sent(q.sent, c.id)
               else
                 && |Sent(q'.sent, c.id)| == |Sent(q.sent, c.id)| + 1
                 && Sent(q'.sent, c.id)[..|Sent(q.sent, c.id)|] == Sent(q.sent, c.id)
                 && var p := Sent(q'.sent, c.id)[|Sent(q.sent, c.id)|];
                    && p.reply == luck.reply && p.recorded == luck.written && p.target == target.value
                    && p.start == luck.start && p.end == luck.end && p.attempt == c.row.attempts + 1
                    && p.body == BodyFor(c.id, c.row) && p.signature == cfg.hmac(target.value.secret, p.body)
  {
  }

  function BodyFor(id: string, row: Intro): Body {
    Body(requestId := id, candidate := row.candidate, name := row.recruiterName, email := row.recruiterEmail,
    company := row.recruiterCompany, ts := row.createdAt)
  }

  // ----- What the log tells about the row -----

  /** The recorded POSTs that were answered by anything but 200 to 299, or not at all. */
  function Rejections(posts: seq<Post>): nat {
    if posts == [] then 0
    else
      var p := posts[|posts| - 1];
      Rejections(posts[..|posts| - 1])
      + if p.recorded && !(p.reply.Reply? && 200 <= p.reply.code < 300) then 1 else 0
  }

  /** POST `k` is the last one whose verdict reached the table. */
  predicate LastRecorded(posts: seq<Post>, k: nat) {
    k < |posts| && posts[k].recorded && forall j :: k < j < |posts| ==> !posts[j].recorded
  }

  /** The row was charged for this POST and is due again once the schedule's entry has passed. */
  ghost predicate Scheduled(cfg: Config, row: Intro, posts: seq<Post>, k: nat)
    requires Ready(cfg)
  {
    && LastRecorded(posts, k) && row.attempts >= 1 && row.lastError == Some(Complaint(posts[k].reply))
    && row.nextAttemptAt ==
       Some(Unix(posts[k].end + if row.attempts <= |cfg.backoffs| then cfg.backoffs[row.attempts - 1]
                                else cfg.backoffs[|cfg.backoffs| - 1]))
  }

  ghost predicate SomeScheduled(cfg: Config, row: Intro, posts: seq<Post>)
    requires Ready(cfg)
  {
    exists k: nat :: Scheduled(cfg, row, posts, k)
  }

  ghost predicate Tells(cfg: Config, id: string, row: Intro, posts: seq<Post>)
    requires Ready(cfg)
  {
    && row.attempts == Rejections(posts)
    && (row.status == Delivered ==>
          |posts| > 0 && posts[|posts| - 1].recorded && posts[|posts| - 1].reply.Reply?
          && 200 <= posts[|posts| - 1].reply.code < 300)
    && (forall k :: (0 <= k < |posts| && posts[k].recorded && posts[k].reply.Reply?
                     && 200 <= posts[k].reply.code < 300) ==> row.status == Delivered)
    && (row.status == Failed ==>
          |posts| > 0 && posts[|posts| - 1].recorded && row.lastError == Some(Complaint(posts[|posts| - 1].reply)))
    && (row.status == Retrying ==> SomeScheduled(cfg, row, posts))
    && (forall k :: 0 <= k < |posts| ==>
                      posts[k].body == BodyFor(id, row)
                      && posts[k].signature == cfg.hmac(posts[k].target.secret, posts[k].body))
  }

  lemma RejectionsAppend(posts: seq<Post>, p: Post)
    ensures Rejections(posts + [p]) ==
            Rejections(posts) + if p.recorded && !(p.reply.Reply? && 200 <= p.reply.code < 300) then 1 else 0
  {
    assert (posts + [p])[..|posts|] == posts;
  }

  /** An unrecorded POST leaves the row as it was. */
  lemma UnrecordedTells(cfg: Config, id: string, row: Intro, posts: seq<Post>, p: Post)
    requires Ready(cfg) && Tells(cfg, id, row, posts) && Live(row) && !p.recorded
    requires p.body == BodyFor(id, row) && p.signature == cfg.hmac(p.target.secret, p.body)
    ensures Tells(cfg, id, row, posts + [p])
  {
    RejectionsAppend(posts, p);
    if row.status == Retrying {
      var k: nat :| Scheduled(cfg, row, posts, k);
      assert Scheduled(cfg, row, posts + [p], k);
    }
  }

  lemma DeliveredTells(cfg: Config, id: string, row: Intro, row': Intro, posts: seq<Post>, p: Post)
    requires Ready(cfg) && Tells(cfg, id, row, posts) && p.recorded
    requires p.reply.Reply? && 200 <= p.reply.code < 300
    requires row'.status == Delivered && row'.attempts == row.attempts && BodyFor(id, row') == BodyFor(id, row)
    requires p.body == BodyFor(id, row) && p.signature == cfg.hmac(p.target.secret, p.body)
    ensures Tells(cfg, id, row', posts + [p])
  {
    RejectionsAppend(posts, p);
  }

  lemma ChargedTells(cfg: Config, id: string, row: Intro, row': Intro, posts: seq<Post>, p: Post)
    requires Ready(cfg) && Tells(cfg, id, row, posts) && Live(row) && p.recorded
    requires !(p.reply.Reply? && 200 <= p.reply.code < 300)
    requires row.attempts >= 0 && Charged(cfg, row, row', p.reply, p.end)
    requires p.body == BodyFor(id, row) && p.signature == cfg.hmac(p.target.secret, p.body)
    ensures Tells(cfg, id, row', posts + [p])
  {
    RejectionsAppend(posts, p);
    assert LastRecorded(posts + [p], |posts|);
    if row'.status == Retrying {
      assert Scheduled(cfg, row', posts + [p], |posts|);
    }
  }

  lemma AttemptTells(cfg: Config, q: Queue, target: Option<DeliveryTarget>, luck: Luck)
    requires Ready(cfg) && Enabled(cfg, q, Attempt(target, luck))
    requires var c := q.batch[0];
             && c.id in q.intros && q.intros[c.id] == c.row && Live(c.row)
             && Tells(cfg, c.id, c.row, Sent(q.sent, c.id))
    ensures var id, q' := q.batch[0].id, Next(cfg, q, Attempt(target, luck));
            id in q'.intros && Tells(cfg, id, q'.intros[id], Sent(q'.sent, id))
  {
    var c, q' := q.batch[0], Next(cfg, q, Attempt(target, luck));
    AttemptOutcome(cfg, q, target, luck);
    PostOutcome(cfg, q, target, luck);
    var posts := Sent(q.sent, c.id);
    if luck.resolved && target.Some? && luck.built {
      var p := Sent(q'.sent, c.id)[|posts|];
      assert Sent(q'.sent, c.id) == posts + [p];
      if !luck.written {
        UnrecordedTells(cfg, c.id, c.row, posts, p);
      } else if luck.reply.Reply? && 200 <= luck.reply.code < 300 {
        DeliveredTells(cfg, c.id, c.row, q'.intros[c.id], posts, p);
      } else {
        ChargedTells(cfg, c.id, c.row, q'.intros[c.id], posts, p);
      }
    }
  }

  ghost predicate AllTell(cfg: Config, q: Queue)
    requires Ready(cfg)
  {
    forall id :: id in q.intros ==> Tells(cfg, id, q.intros[id], Sent(q.sent, id))
  }

  lemma AttemptKeepsTelling(cfg: Config, q: Queue, target: Option<DeliveryTarget>, luck: Luck)
    requires Ready(cfg) && Inv(cfg, q) && Enabled(cfg, q, Attempt(target, luck)) && AllTell(cfg, q)
    ensures AllTell(cfg, Next(cfg, q, Attempt(target, luck)))
  {
    var c, q' := q.batch[0], Next(cfg, q, Attempt(target, luck));
    assert Due(c.row, Unix(q.clock)) && c.id in q.intros && q.intros[c.id] == c.row;
    AttemptTells(cfg, q, target, luck);
    AttemptOutcome(cfg, q, target, luck);
    PostOutcome(cfg, q, target, luck);
    forall id | id in q'.intros && id != c.id
      ensures Tells(cfg, id, q'.intros[id], Sent(q'.sent, id))
    {
      assert Tells(cfg, id, q.intros[id], Sent(q.sent, id)) && Sent(q'.sent, id) == Sent(q.sent, id);
    }
  }

  lemma SubmitKeepsTelling(cfg: Config, q: Queue, id: string, request: Request, now: int)
    requires Ready(cfg) && Inv(cfg, q) && Enabled(cfg, q, Submit(id, request, now)) && AllTell(cfg, q)
    ensures AllTell(cfg, Next(cfg, q, Submit(id, request, now)))
  {
    var q' := Next(cfg, q, Submit(id, request, now));
    if id !in q.intros {
      assert Sent(q.sent, id) == [] && Rejections([]) == 0;
    }
    forall o | o in q'.intros
      ensures Tells(cfg, o, q'.intros[o], Sent(q'.sent, o))
    {
      assert o in q.intros ==> Tells(cfg, o, q.intros[o], Sent(q.sent, o));
    }
  }

  lemma StepKeepsTelling(cfg: Config, q: Queue, s: Step)
    requires Ready(cfg) && Inv(cfg, q) && Enabled(cfg, q, s) && AllTell(cfg, q)
    ensures AllTell(cfg, Next(cfg, q, s))
  {
    if s.Attempt? {
      AttemptKeepsTelling(cfg, q, s.target, s.luck);
    } else if s.Submit? {
      SubmitKeepsTelling(cfg, q, s.id, s.request, s.now);
    }
  }

  lemma {:induction false} LogsTell(cfg: Config, qs: seq<Queue>, steps: seq<Step>, i: nat)
    requires Ready(cfg) && IsTrace(cfg, qs, steps) && Initial(qs[0]) && i < |qs|
    ensures AllTell(cfg, qs[i])
  {
    if i > 0 {
      LogsTell(cfg, qs, steps, i - 1);
      Reachable(cfg, qs, steps, i - 1);
      assert StepAt(cfg, qs, steps, i - 1);
      StepKeepsTelling(cfg, qs[i - 1], steps[i - 1]);
    }
  }

  // ----- Over every run -----

  /** A row is delivered if and only if its last POST was recorded and answered by 200 to 299; no other recorded
      POST ever was. */
  lemma DeliveredIff(cfg: Config, qs: seq<Queue>, steps: seq<Step>, i: nat, id: string)
    requires Ready(cfg) && IsTrace(cfg, qs, steps) && Initial(qs[0]) && i < |qs| && id in qs[i].intros
    ensures var posts := Sent(qs[i].sent, id);
            && (qs[i].intros[id].status == Delivered <==>
                |posts| > 0 && posts[|posts| - 1].recorded && posts[|posts| - 1].reply.Reply?
                && 200 <= posts[|posts| - 1].reply.code < 300)
            && forall k :: 0 <= k < |posts| - 1 && posts[k].recorded ==>
                             !(posts[k].reply.Reply? && 200 <= posts[k].reply.code < 300)
  {
    LogsTell(cfg, qs, steps, i);
    Reachable(cfg, qs, steps, i);
    var posts := Sent(qs[i].sent, id);
    forall k | 0 <= k < |posts| - 1 && posts[k].recorded
      ensures !(posts[k].reply.Reply? && 200 <= posts[k].reply.code < 300)
    {
      assert Follows(cfg, posts[k], posts[k + 1]);
    }
  }

  /** The attempts charged to a row are its recorded POSTs that were answered by anything but 200 to 299, or not
      at all. A row with such a POST as its last recorded one is retrying below the limit and failed at it, and
      names that answer; unless it has become undeliverable since. */
  lemma RejectionsAreCharged(cfg: Config, qs: seq<Queue>, steps: seq<Step>, i: nat, id: string, k: nat)
    requires Ready(cfg) && IsTrace(cfg, qs, steps) && Initial(qs[0]) && i < |qs| && id in qs[i].intros
    ensures qs[i].intros[id].attempts == Rejections(Sent(qs[i].sent, id))
    ensures var row, posts := qs[i].intros[id], Sent(qs[i].sent, id);
            LastRecorded(posts, k) && !(posts[k].reply.Reply? && 200 <= posts[k].reply.code < 300) ==>
              || row.status == Undeliverable
              || (row.status == (if row.attempts < cfg.maxAttempts then Retrying else Failed)
                  && row.lastError == Some(Complaint(posts[k].reply)))
  {
    LogsTell(cfg, qs, steps, i);
    AttemptAccounting(cfg, qs, steps, i, id);
    var row, posts := qs[i].intros[id], Sent(qs[i].sent, id);
    if LastRecorded(posts, k) && !(posts[k].reply.Reply? && 200 <= posts[k].reply.code < 300) {
      SomeRejections(posts, k);
      if row.status == Retrying {
        var j: nat :| Scheduled(cfg, row, posts, j);
        assert j == k;
      }
    }
  }

  lemma {:induction false} SomeRejections(posts: seq<Post>, k: nat)
    requires k < |posts| && posts[k].recorded && !(posts[k].reply.Reply? && 200 <= posts[k].reply.code < 300)
    ensures Rejections(posts) > 0
  {
    if k < |posts| - 1 {
      SomeRejections(posts[..|posts| - 1], k);
    }
  }

  /** A retrying row is due again exactly once its own entry of the schedule has passed since its last recorded
      POST, in whole seconds; in particular at the latest when the full delay has passed. */
  lemma RetryIsDueOnTime(cfg: Config, qs: seq<Queue>, steps: seq<Step>, i: nat, id: string) returns (k: nat)
    requires Ready(cfg) && IsTrace(cfg, qs, steps) && Initial(qs[0]) && i < |qs|
    requires id in qs[i].intros && qs[i].intros[id].status == Retrying
    ensures LastRecorded(Sent(qs[i].sent, id), k) && qs[i].intros[id].attempts >= 1
    ensures var row, posts := qs[i].intros[id], Sent(qs[i].sent, id);
            var delay := if row.attempts <= |cfg.backoffs| then cfg.backoffs[row.attempts - 1]
                         else cfg.backoffs[|cfg.backoffs| - 1];
            && (Due(row, Unix(qs[i].clock)) <==> Unix(posts[k].end + delay) <= Unix(qs[i].clock))
            && (posts[k].end + delay <= qs[i].clock ==> Due(row, Unix(qs[i].clock)))
  {
    LogsTell(cfg, qs, steps, i);
    var row, posts := qs[i].intros[id], Sent(qs[i].sent, id);
    k :| Scheduled(cfg, row, posts, k);
    var delay := if row.attempts <= |cfg.backoffs| then cfg.backoffs[row.attempts - 1]
                 else cfg.backoffs[|cfg.backoffs| - 1];
    if posts[k].end + delay <= qs[i].clock {
      UnixMonotone(posts[k].end + delay, qs[i].clock);
    }
  }

  // ----- What was submitted is what is posted -----

  /** The row reads as it was submitted at `now`. */
  predicate ReadsAs(row: Intro, r: Request, now: int) {
    && row.candidate == r.candidate && row.recruiter == r.recruiter && row.nodeId == r.nodeId
    && row.recruiterName == r.name && row.recruiterEmail == r.email && row.createdAt == Unix(now)
    && (if r.company == "" then row.recruiterCompany.None? else row.recruiterCompany == Some(r.company))
  }

  lemma StepKeepsRequest(cfg: Config, q: Queue, s: Step, id: string)
    requires Ready(cfg) && Enabled(cfg, q, s) && id in q.intros
    ensures var q' := Next(cfg, q, s);
            && id in q'.intros
            && forall r, now :: ReadsAs(q.intros[id], r, now) ==> ReadsAs(q'.intros[id], r, now)
  {
  }

  lemma {:induction false} SubmittedRow(cfg: Config, qs: seq<Queue>, steps: seq<Step>, i: nat, id: string)
    returns (k: nat)
    requires Ready(cfg) && IsTrace(cfg, qs, steps) && Initial(qs[0]) && i < |qs| && id in qs[i].intros
    ensures k < i && steps[k].Submit? && steps[k].id == id && id !in qs[k].intros
    ensures ReadsAs(qs[i].intros[id], steps[k].request, steps[k].now)
  {
    assert StepAt(cfg, qs, steps, i - 1);
    if id in qs[i - 1].intros {
      k := SubmittedRow(cfg, qs, steps, i - 1, id);
      StepKeepsRequest(cfg, qs[i - 1], steps[i - 1], id);
    } else {
      k := i - 1;
    }
  }

  /** Every POST of a row carries, under the row's identifier, what the recruiter submitted and when, and is signed
      with the secret of the target it went to. */
  lemma PostsCarryTheSubmission(cfg: Config, qs: seq<Queue>, steps: seq<Step>, i: nat, id: string, j: nat)
    returns (k: nat)
    requires Ready(cfg) && IsTrace(cfg, qs, steps) && Initial(qs[0]) && i < |qs| && j < |Sent(qs[i].sent, id)|
    ensures k < i && steps[k].Submit? && steps[k].id == id && id !in qs[k].intros
    ensures var post, r := Sent(qs[i].sent, id)[j], steps[k].request;
            && post.body.requestId == id && post.body.candidate == r.candidate
            && post.body.name == r.name && post.body.email == r.email
            && (if r.company == "" then post.body.company.None? else post.body.company == Some(r.company))
            && post.body.ts == Unix(steps[k].now)
            && post.signature == cfg.hmac(post.target.secret, post.body)
  {
    Reachable(cfg, qs, steps, i);
    assert id in qs[i].intros;
    LogsTell(cfg, qs, steps, i);
    k := SubmittedRow(cfg, qs, steps, i, id);
  }
}
