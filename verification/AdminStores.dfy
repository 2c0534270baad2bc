/** The in-memory admin stores: session tokens and single-use login links, each with a reaper. */
module AdminStores {
  import opened Basics

  predicate Alive(expiry: map<string, int>, k: string, now: int) {
    k != "" && k in expiry && now <= expiry[k]
  }

  /** A check drops the entry it finds expired. */
  function Checked(expiry: map<string, int>, k: string, now: int): map<string, int> {
    if k != "" && k in expiry && now > expiry[k] then expiry - {k} else expiry
  }

  /** A take, and a revocation, drop the entry in any case. */
  function Taken(expiry: map<string, int>, k: string): map<string, int> {
    if k == "" then expiry else expiry - {k}
  }

  function Reaped(expiry: map<string, int>, now: int): map<string, int> {
    map k | k in expiry && now <= expiry[k] :: expiry[k]
  }

  /** A round of either reap loop. */
  method ReapMap(expiry: map<string, int>, now: int) returns (left: map<string, int>)
    ensures left == Reaped(expiry, now)
  {
    left := expiry;
    var rest := expiry.Keys;
    while rest != {}
      invariant rest <= left.Keys
      invariant left == map k | k in expiry && (k in rest || now <= expiry[k]) :: expiry[k]
      decreases rest
    {
      var k :| k in rest;
      rest := rest - {k};
      if now > left[k] {
        left := left - {k};
      }
    }
  }

  class AdminSessions {
    var sessions: map<string, int>
    const ttl: int

    constructor (ttl: int)
      ensures sessions == map[] && this.ttl == if ttl <= 0 then 7200 * SECOND else ttl
    {
      this.sessions := map[];
      this.ttl := if ttl <= 0 then 7200 * SECOND else ttl;
    }

    /** Stores the freshly drawn token `tok`. */
    method NewToken(tok: string, now: int)
      modifies this
      ensures sessions == old(sessions)[tok := now + ttl]
    {
      sessions := sessions[tok := now + ttl];
    }

    method Valid(tok: string, now: int) returns (ok: bool)
      modifies this
      ensures ok == Alive(old(sessions), tok, now)
      ensures sessions == Checked(old(sessions), tok, now)
    {
      if tok == "" || tok !in sessions { return false; }
      if now > sessions[tok] {
        sessions := sessions - {tok};
        return false;
      }
      return true;
    }

    method Revoke(tok: string)
      modifies this
      ensures sessions == Taken(old(sessions), tok)
    {
      if tok == "" { return; }
      sessions := sessions - {tok};
    }

    method Reap(now: int)
      modifies this
      ensures sessions == Reaped(old(sessions), now)
    {
      sessions := ReapMap(sessions, now);
    }
  }

  class AdminPendingLinks {
    var links: map<string, int>
    const ttl: int

    constructor (ttl: int)
      ensures links == map[] && this.ttl == if ttl <= 0 then 900 * SECOND else ttl
    {
      this.links := map[];
      this.ttl := if ttl <= 0 then 900 * SECOND else ttl;
    }

    method Put(tokenHash: string, now: int)
      modifies this
      ensures links == old(links)[tokenHash := now + ttl]
    {
      links := links[tokenHash := now + ttl];
    }

    method Consume(tokenHash: string, now: int) returns (ok: bool)
      modifies this
      ensures ok == Alive(old(links), tokenHash, now)
      ensures links == Taken(old(links), tokenHash)
    {
      if tokenHash == "" || tokenHash !in links { return false; }
      var expiry := links[tokenHash];
      links := links - {tokenHash};
      return now <= expiry;
    }

    method Reap(now: int)
      modifies this
      ensures links == Reaped(old(links), now)
    {
      links := ReapMap(links, now);
    }
  }

  // ----- Runs of either store -----

  // `Put` is NewToken or Put, `Check` is Valid, `Take` is Consume, `Drop` is Revoke.
  datatype Event =
    | Put(key: string, now: int)
    | Check(key: string, now: int)
    | Take(key: string, now: int)
    | Drop(key: string, now: int)
    | Reap(now: int)

  predicate Monotone(events: seq<Event>) {
    forall i, j :: 0 <= i < j < |events| ==> events[i].now <= events[j].now
  }

  /** The store after the first `n` events; without `reaping` the reap events do nothing. */
  function After(events: seq<Event>, ttl: int, n: nat, reaping: bool): map<string, int>
    requires n <= |events|
  {
    if n == 0 then map[] else
    var before := After(events, ttl, n - 1, reaping);
    match events[n - 1]
    case Put(k, now) => before[k := now + ttl]
    case Check(k, now) => Checked(before, k, now)
    case Take(k, _) => Taken(before, k)
    case Drop(k, _) => Taken(before, k)
    case Reap(now) => if reaping then Reaped(before, now) else before
  }

  /** The answer of event `i`, a check or a take. */
  predicate AcceptedAt(events: seq<Event>, ttl: int, i: nat, reaping: bool)
    requires i < |events|
  {
    (events[i].Check? || events[i].Take?) && Alive(After(events, ttl, i, reaping), events[i].key, events[i].now)
  }

  predicate OnlyExpiredMissing(expiry: map<string, int>, full: map<string, int>, now: int) {
    && (forall k :: k in expiry ==> k in full && full[k] == expiry[k])
    && (forall k :: k in full && k !in expiry ==> full[k] < now)
  }

  lemma {:induction false} ReapingOnlyDropsExpired(events: seq<Event>, ttl: int, n: nat, now: int)
    requires Monotone(events) && n <= |events| && (n > 0 ==> events[n - 1].now <= now)
    ensures OnlyExpiredMissing(After(events, ttl, n, true), After(events, ttl, n, false), now)
  {
    if n > 0 {
      ReapingOnlyDropsExpired(events, ttl, n - 1, events[n - 1].now);
    }
  }

  /** Reap events, wherever they fall, change no answer of `Valid` or `Consume`. */
  lemma ReaperIsInvisible(events: seq<Event>, ttl: int, i: nat)
    requires Monotone(events) && i < |events|
    ensures AcceptedAt(events, ttl, i, true) == AcceptedAt(events, ttl, i, false)
  {
    ReapingOnlyDropsExpired(events, ttl, i, events[i].now);
  }

  /** Event `p` stored `k`, and nothing up to event `n` stored, took or dropped it again. */
  predicate StoredAt(events: seq<Event>, k: string, p: nat, n: nat)
    requires n <= |events|
  {
    p < n && events[p].Put? && events[p].key == k
    && forall j :: p < j < n ==>
                     !((events[j].Put? || events[j].Take? || events[j].Drop?) && events[j].key == k && k != "")
  }

  lemma {:induction false} EntriesWerePut(events: seq<Event>, ttl: int, n: nat, k: string) returns (p: nat)
    requires n <= |events| && k != "" && k in After(events, ttl, n, true)
    ensures StoredAt(events, k, p, n) && After(events, ttl, n, true)[k] == events[p].now + ttl
  {
    if events[n - 1].Put? && events[n - 1].key == k {
      p := n - 1;
    } else {
      p := EntriesWerePut(events, ttl, n - 1, k);
    }
  }

  /** What a store accepts was put in at most a lifetime ago and has not been taken or dropped since. */
  lemma AcceptedWasStored(events: seq<Event>, ttl: int, i: nat) returns (p: nat)
    requires Monotone(events) && i < |events| && AcceptedAt(events, ttl, i, true)
    ensures StoredAt(events, events[i].key, p, i)
    ensures events[p].now <= events[i].now <= events[p].now + ttl
  {
    p := EntriesWerePut(events, ttl, i, events[i].key);
  }

  /** A stored link is consumed at most once: between two successful takes it was put in again. */
  lemma LinkIsSingleUse(events: seq<Event>, ttl: int, i: nat, j: nat) returns (p: nat)
    requires Monotone(events) && i < j < |events| && events[i].Take? && events[j].Take?
    requires events[i].key == events[j].key
    requires AcceptedAt(events, ttl, i, true) && AcceptedAt(events, ttl, j, true)
    ensures i < p < j && events[p].Put? && events[p].key == events[j].key && events[j].now <= events[p].now + ttl
  {
    p := AcceptedWasStored(events, ttl, j);
  }

  /** Conversely, the first take after a put succeeds throughout the lifetime. */
  lemma {:induction false} StoredIsAccepted(events: seq<Event>, ttl: int, p: nat, i: nat)
    requires Monotone(events) && i < |events| && (events[i].Check? || events[i].Take?) && events[i].key != ""
    requires StoredAt(events, events[i].key, p, i) && events[i].now <= events[p].now + ttl
    ensures AcceptedAt(events, ttl, i, true)
  {
    StaysStored(events, ttl, events[i].key, p, i, events[i].now);
  }

  lemma {:induction false} StaysStored(events: seq<Event>, ttl: int, k: string, p: nat, n: nat, now: int)
    requires Monotone(events) && n <= |events| && k != "" && StoredAt(events, k, p, n)
    requires events[n - 1].now <= now <= events[p].now + ttl
    ensures k in After(events, ttl, n, true) && After(events, ttl, n, true)[k] == events[p].now + ttl
  {
    if p < n - 1 {
      StaysStored(events, ttl, k, p, n - 1, events[n - 1].now);
    }
  }
}
