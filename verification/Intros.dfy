/** Rows of introduction_requests: the drain query and the four guarded transitions. */
module Intros {
  import opened Basics
  import opened Schema

  // The result of one UPDATE: it hit a row, missed every row, or the statement failed.
  datatype Write = Hit | Missed | Broken

  // A row as the drain query returned it; it may grow stale while the batch is worked through.
  datatype Copy = Copy(id: string, row: Intro)

  predicate Live(row: Intro) {
    row.status == Queued || row.status == Retrying
  }

  predicate Due(row: Intro, now: int) {
    Live(row) && (row.nextAttemptAt.None? || row.nextAttemptAt.value <= now)
  }

  function QueuedRow(candidate: string, recruiter: string, nodeId: string, name: string, email: string,
                     company: string, now: int): Intro
  {
    Intro(candidate, recruiter, nodeId, name, email, if company == "" then None else Some(company),
          Queued, now, None, 0, None, None)
  }

  function DeliveredRow(row: Intro, now: int): Intro {
    row.(status := Delivered, deliveredAt := Some(now), lastError := None, nextAttemptAt := None)
  }

  function RetryingRow(row: Intro, error: IntroError, nextAt: int): Intro {
    row.(status := Retrying, attempts := row.attempts + 1, lastError := Some(error), nextAttemptAt := Some(nextAt))
  }

  function FailedRow(row: Intro, error: IntroError): Intro {
    row.(status := Failed, attempts := row.attempts + 1, lastError := Some(error), nextAttemptAt := None)
  }

  function UndeliverableRow(row: Intro): Intro {
    row.(status := Undeliverable, lastError := Some(NoTarget), nextAttemptAt := None)
  }

  /** `batch` is an answer of the drain query: the `limit` oldest due rows in creation order,
      ties broken in any way. */
  ghost predicate IsPendingBatch(intros: map<string, Intro>, now: int, limit: nat, batch: seq<Copy>) {
    && |batch| <= limit
    && (forall i, j :: 0 <= i < j < |batch| ==>
          batch[i].id != batch[j].id && batch[i].row.createdAt <= batch[j].row.createdAt)
    && (forall i :: 0 <= i < |batch| ==>
          batch[i].id in intros && intros[batch[i].id] == batch[i].row && Due(batch[i].row, now))
    && (forall id :: id in intros && Due(intros[id], now) && !InBatch(batch, id) ==>
          |batch| == limit && forall i :: 0 <= i < |batch| ==> batch[i].row.createdAt <= intros[id].createdAt)
  }

  ghost predicate InBatch(batch: seq<Copy>, id: string) {
    exists i :: 0 <= i < |batch| && batch[i].id == id
  }

  lemma InBatchAppend(batch: seq<Copy>, c: Copy)
    ensures forall id :: InBatch(batch + [c], id) <==> InBatch(batch, id) || id == c.id
  {
    forall id
      ensures InBatch(batch + [c], id) <==> InBatch(batch, id) || id == c.id
    {
      if InBatch(batch, id) {
        var i :| 0 <= i < |batch| && batch[i].id == id;
        assert (batch + [c])[i].id == id;
      }
      assert (batch + [c])[|batch|].id == c.id;
    }
  }

  /** The oldest due row outside a batch extends it. */
  lemma OneMoreRow(intros: map<string, Intro>, now: int, limit: nat, batch: seq<Copy>, oldest: string)
    requires limit > 0 && IsPendingBatch(intros, now, limit - 1, batch)
    requires oldest in intros && Due(intros[oldest], now) && !InBatch(batch, oldest)
    requires forall o :: o in intros && Due(intros[o], now) && !InBatch(batch, o) ==>
                           intros[oldest].createdAt <= intros[o].createdAt
    ensures IsPendingBatch(intros, now, limit, batch + [Copy(oldest, intros[oldest])])
  {
    InBatchAppend(batch, Copy(oldest, intros[oldest]));
  }

  lemma {:induction false} OldestExists(intros: map<string, Intro>, ids: set<string>) returns (oldest: string)
    requires ids != {} && ids <= intros.Keys
    ensures oldest in ids && forall o :: o in ids ==> intros[oldest].createdAt <= intros[o].createdAt
    decreases ids
  {
    oldest :| oldest in ids;
    if ids != {oldest} {
      var other := OldestExists(intros, ids - {oldest});
      if intros[other].createdAt < intros[oldest].createdAt {
        oldest := other;
      }
    }
  }

  method InsertIntroductionRequest(db: Database, id: string, candidate: string, recruiter: string, nodeId: string,
                                   name: string, email: string, company: string, now: int, up: bool)
    returns (ok: bool)
    modifies db`intros
    ensures ok == (up && id !in old(db.intros))
    ensures db.intros ==
            if ok then old(db.intros)[id := QueuedRow(candidate, recruiter, nodeId, name, email, company, Unix(now))]
            else old(db.intros)
  {
    ok := up && id !in db.intros;
    if ok {
      db.intros := db.intros[id := QueuedRow(candidate, recruiter, nodeId, name, email, company, Unix(now))];
    }
  }

  /** None: the query failed. */
  method PendingIntroductionRequests(db: Database, now: int, limit: nat, up: bool)
    returns (answer: Option<seq<Copy>>)
    ensures answer.None? <==> !up
    ensures answer.Some? ==> IsPendingBatch(db.intros, now, limit, answer.value)
  {
    if !up { return None; }
    var out: seq<Copy> := [];
    var due := set id | id in db.intros && Due(db.intros[id], now);
    while |out| < limit && due != {}
      invariant IsPendingBatch(db.intros, now, |out|, out) && |out| <= limit
      invariant forall id :: id in due <==> id in db.intros && Due(db.intros[id], now) && !InBatch(out, id)
      decreases due
    {
      ghost var oldest := OldestExists(db.intros, due);
      var id :| id in due && forall o :: o in due ==> db.intros[id].createdAt <= db.intros[o].createdAt;
      OneMoreRow(db.intros, now, |out| + 1, out, id);
      InBatchAppend(out, Copy(id, db.intros[id]));
      out := out + [Copy(id, db.intros[id])];
      due := due - {id};
    }
    return Some(out);
  }

  method MarkIntroDelivered(db: Database, id: string, now: int, up: bool) returns (w: Write)
    modifies db`intros
    ensures w == if !up then Broken else if id in old(db.intros) && Live(old(db.intros)[id]) then Hit else Missed
    ensures db.intros ==
            if w == Hit then old(db.intros)[id := DeliveredRow(old(db.intros)[id], now)] else old(db.intros)
  {
    if !up { return Broken; }
    if id !in db.intros || !Live(db.intros[id]) { return Missed; }
    db.intros := db.intros[id := DeliveredRow(db.intros[id], now)];
    return Hit;
  }

  method MarkIntroRetrying(db: Database, id: string, error: IntroError, nextAt: int, up: bool) returns (w: Write)
    modifies db`intros
    ensures w == if !up then Broken else if id in old(db.intros) && Live(old(db.intros)[id]) then Hit else Missed
    ensures db.intros ==
            if w == Hit then old(db.intros)[id := RetryingRow(old(db.intros)[id], error, nextAt)] else old(db.intros)
  {
    if !up { return Broken; }
    if id !in db.intros || !Live(db.intros[id]) { return Missed; }
    db.intros := db.intros[id := RetryingRow(db.intros[id], error, nextAt)];
    return Hit;
  }

  method MarkIntroFailed(db: Database, id: string, error: IntroError, up: bool) returns (w: Write)
    modifies db`intros
    ensures w == if !up then Broken else if id in old(db.intros) && Live(old(db.intros)[id]) then Hit else Missed
    ensures db.intros ==
            if w == Hit then old(db.intros)[id := FailedRow(old(db.intros)[id], error)] else old(db.intros)
  {
    if !up { return Broken; }
    if id !in db.intros || !Live(db.intros[id]) { return Missed; }
    db.intros := db.intros[id := FailedRow(db.intros[id], error)];
    return Hit;
  }

  // The only transition whose guard also admits a delivered row.
  method MarkIntroUndeliverable(db: Database, id: string, up: bool) returns (w: Write)
    modifies db`intros
    ensures w == if !up then Broken
                 else if id in old(db.intros) && (Live(old(db.intros)[id]) || old(db.intros)[id].status == Delivered)
                 then Hit else Missed
    ensures db.intros ==
            if w == Hit then old(db.intros)[id := UndeliverableRow(old(db.intros)[id])] else old(db.intros)
  {
    if !up { return Broken; }
    if id !in db.intros || !(Live(db.intros[id]) || db.intros[id].status == Delivered) { return Missed; }
    db.intros := db.intros[id := UndeliverableRow(db.intros[id])];
    return Hit;
  }
}
