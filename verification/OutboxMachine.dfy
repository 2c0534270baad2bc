/** The delivery worker as a state machine over introduction_requests.

    One worker drains the queue while other requests keep submitting rows. A step is one repository
    call or one delivery attempt, so a batch may grow stale between its load and its last row. */
module OutboxMachine {
  import opened Basics
  import opened Schema
  import opened Intros
  import opened Nodes

  // The JSON document that is signed and posted; its encoding is left abstract.
  datatype Body = Body(requestId: string, candidate: string, name: string, email: string,
                       company: Option<string>, ts: int)

  // `hmac` is the keyed digest; nothing is assumed about it.
  datatype Config = Config(backoffs: seq<int>, maxAttempts: int, batchSize: int, hmac: (string, Body) -> string)

  const DEFAULT_BACKOFFS: seq<int> := [60 * SECOND, 300 * SECOND, 1800 * SECOND]

  predicate Ready(cfg: Config) {
    |cfg.backoffs| > 0 && cfg.maxAttempts > 0 && cfg.batchSize > 0
  }

  /** The configuration a worker runs with: unset knobs take their defaults. */
  function Effective(cfg: Config): (r: Config)
    ensures Ready(r)
    ensures Ready(cfg) ==> r == cfg
  {
    cfg.(backoffs := if cfg.backoffs == [] then DEFAULT_BACKOFFS else cfg.backoffs,
    maxAttempts := if cfg.maxAttempts <= 0 then 5 else cfg.maxAttempts,
    batchSize := if cfg.batchSize <= 0 then 32 else cfg.batchSize)
  }

  /** The delay after failed attempt number `attempt`, counting from 1: the schedule's entry, or its last. */
  function Delay(cfg: Config, attempt: int): int
    requires Ready(cfg) && attempt >= 1
  {
    var n := |cfg.backoffs|;
    cfg.backoffs[(if attempt < n then attempt else n) - 1]
  }

  datatype Reply = NoReply(message: string) | Reply(code: int)

  // What the outside world decides during one attempt: whether the target lookup and the request
  // construction succeed, the answer, the clock around the POST, and whether the row write succeeds.
  datatype Luck = Luck(resolved: bool, built: bool, reply: Reply, start: int, end: int, written: bool)

  // A POST that left the worker and what came back. `recorded` says that its verdict reached the table.
  datatype Post = Post(attempt: int, start: int, end: int, reply: Reply, recorded: bool,
                       target: DeliveryTarget, body: Body, signature: string)

  datatype Queue = Queue(intros: map<string, Intro>, batch: seq<Copy>, sent: map<string, seq<Post>>, clock: int)

  // What a recruiter submits; an empty company stands for none.
  datatype Request = Request(candidate: string, recruiter: string, nodeId: string, name: string, email: string,
                             company: string)

  datatype Step =
    | Tick(now: int)
    | Submit(id: string, request: Request, now: int)
    | Load(now: int, batch: seq<Copy>)
    | Attempt(target: Option<DeliveryTarget>, luck: Luck)
    | Abandon

  predicate Accepted(reply: Reply) {
    reply.Reply? && 200 <= reply.code < 300
  }

  predicate Posts(target: Option<DeliveryTarget>, luck: Luck) {
    luck.resolved && target.Some? && luck.built
  }

  function BodyOf(c: Copy): Body {
    Body(c.id, c.row.candidate, c.row.recruiterName, c.row.recruiterEmail, c.row.recruiterCompany, c.row.createdAt)
  }

  function ErrorOf(reply: Reply): IntroError {
    match reply
    case NoReply(message) => HttpError(message)
    case Reply(code) => NonOk(code)
  }

  /** The row left by a failed POST of the batch copy `c`. */
  function AfterFailure(cfg: Config, current: Intro, c: Copy, luck: Luck): Intro
    requires Ready(cfg) && c.row.attempts >= 0
  {
    if c.row.attempts + 1 >= cfg.maxAttempts
    then FailedRow(current, ErrorOf(luck.reply))
    else RetryingRow(current, ErrorOf(luck.reply), Unix(luck.end + Delay(cfg, c.row.attempts + 1)))
  }

  /** The table after one attempt on the batch copy `c`. */
  function AfterAttempt(cfg: Config, intros: map<string, Intro>, c: Copy,
                        target: Option<DeliveryTarget>, luck: Luck): map<string, Intro>
    requires Ready(cfg) && c.row.attempts >= 0
  {
    if !luck.resolved || !luck.written || c.id !in intros then intros
    else if target.None? then
      if Live(intros[c.id]) || intros[c.id].status == Delivered
      then intros[c.id := UndeliverableRow(intros[c.id])] else intros
    else if !luck.built || !Live(intros[c.id]) then intros
    else if Accepted(luck.reply) then intros[c.id := DeliveredRow(intros[c.id], Unix(luck.end))]
    else intros[c.id := AfterFailure(cfg, intros[c.id], c, luck)]
  }

  function RowOf(r: Request, now: int): Intro {
    QueuedRow(r.candidate, r.recruiter, r.nodeId, r.name, r.email, r.company, Unix(now))
  }

  function Sent(sent: map<string, seq<Post>>, id: string): seq<Post> {
    if id in sent then sent[id] else []
  }

  function PostFor(cfg: Config, intros: map<string, Intro>, c: Copy, t: DeliveryTarget, luck: Luck): Post {
    Post(c.row.attempts + 1, luck.start, luck.end, luck.reply,
         luck.written && c.id in intros && Live(intros[c.id]),
         t, BodyOf(c), cfg.hmac(t.secret, BodyOf(c)))
  }

  function AfterSending(cfg: Config, intros: map<string, Intro>, sent: map<string, seq<Post>>, c: Copy,
                        target: Option<DeliveryTarget>, luck: Luck): map<string, seq<Post>>
  {
    if Posts(target, luck)
    then sent[c.id := Sent(sent, c.id) + [PostFor(cfg, intros, c, target.value, luck)]]
    else sent
  }

  ghost predicate Enabled(cfg: Config, q: Queue, s: Step)
    requires Ready(cfg)
  {
    match s
    case Tick(now) => q.clock <= now
    case Submit(_, _, now) => q.clock <= now
    case Load(now, batch) =>
      q.batch == [] && q.clock <= now && IsPendingBatch(q.intros, Unix(now), cfg.batchSize, batch)
    case Attempt(_, luck) =>
      |q.batch| > 0 && q.batch[0].row.attempts >= 0 && q.clock <= luck.start <= luck.end
    case Abandon => true
  }

  ghost function Next(cfg: Config, q: Queue, s: Step): Queue
    requires Ready(cfg) && Enabled(cfg, q, s)
  {
    match s
    case Tick(now) => q.(clock := now)
    case Submit(id, request, now) =>
      q.(clock := now, intros := if id in q.intros then q.intros else q.intros[id := RowOf(request, now)])
    case Load(now, batch) => q.(clock := now, batch := batch)
    case Attempt(target, luck) =>
      var c := q.batch[0];
      Queue(AfterAttempt(cfg, q.intros, c, target, luck), q.batch[1..],
            AfterSending(cfg, q.intros, q.sent, c, target, luck), luck.end)
    case Abandon => q.(batch := [])
  }

  ghost predicate Initial(q: Queue) {
    q.intros == map[] && q.batch == [] && q.sent == map[]
  }

  ghost predicate IsTrace(cfg: Config, qs: seq<Queue>, steps: seq<Step>)
    requires Ready(cfg)
  {
    && |qs| == |steps| + 1
    && forall i :: 0 <= i < |steps| ==> StepAt(cfg, qs, steps, i)
  }

  ghost predicate StepAt(cfg: Config, qs: seq<Queue>, steps: seq<Step>, i: int)
    requires Ready(cfg) && 0 <= i < |steps| < |qs|
  {
    Enabled(cfg, qs[i], steps[i]) && qs[i + 1] == Next(cfg, qs[i], steps[i])
  }

  // ----- The invariant -----

  function Recorded(posts: seq<Post>): nat {
    if posts == [] then 0
    else Recorded(posts[..|posts| - 1]) + if posts[|posts| - 1].recorded then 1 else 0
  }

  predicate AllRecorded(posts: seq<Post>) {
    forall i :: 0 <= i < |posts| ==> posts[i].recorded
  }

  /** `b` is the POST that follows `a` for the same row: a recorded failure costs one attempt and its
      full delay (less the second lost to rounding); an unrecorded POST is simply repeated. */
  predicate Follows(cfg: Config, a: Post, b: Post)
    requires Ready(cfg)
  {
    && a.end <= b.start
    && a.attempt >= 1
    && (a.recorded ==>
          !Accepted(a.reply) && b.attempt == a.attempt + 1 && b.start > a.end + Delay(cfg, a.attempt) - SECOND)
    && (!a.recorded ==> b.attempt == a.attempt)
  }

  predicate Terminal(row: Intro) {
    !Live(row)
  }

  function DeliveredCount(row: Intro): nat {
    if row.status == Delivered then 1 else 0
  }

  predicate RowOk(cfg: Config, row: Intro) {
    && 0 <= row.attempts
    && (row.status == Queued ==> row.attempts == 0)
    && (row.status == Retrying ==> row.attempts >= 1)
    && (row.status == Failed ==> row.attempts == cfg.maxAttempts)
    && (row.status != Failed ==> row.attempts < cfg.maxAttempts)
    && (row.deliveredAt.Some? <==> row.status == Delivered)
    && (row.nextAttemptAt.Some? <==> row.status == Retrying)
  }

  /** The POST log of a row agrees with the row. */
  predicate LogOk(cfg: Config, row: Intro, posts: seq<Post>, clock: int)
    requires Ready(cfg)
  {
    && Recorded(posts) == row.attempts + DeliveredCount(row)
    && (forall i :: 0 <= i < |posts| - 1 ==> Follows(cfg, posts[i], posts[i + 1]))
    && (forall i :: 0 <= i < |posts| ==> posts[i].start <= posts[i].end <= clock)
    && (|posts| > 0 ==> posts[0].attempt == 1)
    && (|posts| > 0 ==>
          var last := posts[|posts| - 1];
          && last.attempt >= 1
          && (last.recorded ==>
                && last.attempt == row.attempts + DeliveredCount(row)
                && (Accepted(last.reply) <==> row.status == Delivered)
                && (row.status == Retrying ==>
                      row.nextAttemptAt == Some(Unix(last.end + Delay(cfg, last.attempt)))))
          && (!last.recorded ==> last.attempt == row.attempts + 1 && row.status != Delivered && row.status != Failed))
  }

  /** Batch copies are distinct rows that still read as they did when the batch was loaded. */
  predicate BatchOk(q: Queue) {
    && (forall i, j :: 0 <= i < j < |q.batch| ==> q.batch[i].id != q.batch[j].id)
    && (forall i :: 0 <= i < |q.batch| ==>
          q.batch[i].id in q.intros && q.intros[q.batch[i].id] == q.batch[i].row
          && Due(q.batch[i].row, Unix(q.clock)))
  }

  predicate Inv(cfg: Config, q: Queue)
    requires Ready(cfg)
  {
    && BatchOk(q)
    && q.sent.Keys <= q.intros.Keys
    && forall id :: id in q.intros ==>
                      RowOk(cfg, q.intros[id]) && LogOk(cfg, q.intros[id], Sent(q.sent, id), q.clock)
  }
}
