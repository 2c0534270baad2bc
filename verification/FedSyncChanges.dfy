/** Sync with a peer whose own table changes between rounds: its nodes push snapshots again and are revoked. */
module FedSyncChanges {
  import opened Basics
  import opened Schema
  import opened FedSync
  import opened FedSyncTheorems
  import C = CatalogMachine

  // ----- Runs -----

  // The local rows, the peer's table in the order in which its query sorts it, and the peer's clock in seconds.
  datatype State = State(rows: map<string, FedRow>, table: seq<PeerSnap>, clock: int)

  // `Restart` is a round whose cursor query failed, so that it begins at 0; `Theirs` is a round with another
  // peer.
  datatype Event =
    | Change(table: seq<PeerSnap>, clock: int)
    | Round(since: int, failed: set<nat>)
    | Restart(failed: set<nat>)
    | Theirs(rows: map<string, FedRow>)

  // The peer and its endpoint, and which candidates its nodes push.
  datatype Peer = Peer(id: string, endpoint: string, owns: string -> bool)

  /** One snapshot for each of the peer's candidates, none from the future. */
  predicate TableOk(p: Peer, table: seq<PeerSnap>, clock: int) {
    && Ascending(table) && DistinctCandidates(table)
    && forall i :: 0 <= i < |table| ==> 0 < table[i].ingestedAt <= clock && p.owns(table[i].candidate)
  }

  /** Rows may leave the table and rows of one second may be reordered; a row that comes in is stamped by the
      peer's clock. */
  predicate Changes(table: seq<PeerSnap>, clock: int, table': seq<PeerSnap>, clock': int) {
    && clock <= clock'
    && forall s :: s in table' ==> s in table || s.ingestedAt >= clock
  }

  ghost predicate LeavesOwn(p: Peer, rows: map<string, FedRow>, rows': map<string, FedRow>) {
    && (forall c :: (c in rows || c in rows') && p.owns(c) ==> c in rows && c in rows' && rows'[c] == rows[c])
    && (forall c :: c in rows' && rows'[c].peer == p.id ==> c in rows && rows[c] == rows'[c])
  }

  /** The rows an event stores. */
  function KeptBy(s: State, e: Event): seq<PeerSnap> {
    match e
    case Round(since, failed) => Kept(Page(s.table, since), failed)
    case Restart(failed) => Kept(Page(s.table, 0), failed)
    case _ => []
  }

  ghost predicate Happens(p: Peer, s: State, e: Event, s': State) {
    match e
    case Change(table, clock) =>
      s' == State(s.rows, table, clock) && Changes(s.table, s.clock, table, clock) && TableOk(p, table, clock)
    case Round(since, _) =>
      IsCursor(s.rows, p.id, since) && s' == s.(rows := Stored(s.rows, p.id, p.endpoint, KeptBy(s, e)))
    case Restart(_) => s' == s.(rows := Stored(s.rows, p.id, p.endpoint, KeptBy(s, e)))
    case Theirs(rows) => LeavesOwn(p, s.rows, rows) && s' == s.(rows := rows)
  }

  ghost predicate IsHistory(p: Peer, ss: seq<State>, events: seq<Event>) {
    && |ss| == |events| + 1
    && (forall c :: c in ss[0].rows ==> ss[0].rows[c].peer != p.id && !p.owns(c))
    && TableOk(p, ss[0].table, ss[0].clock)
    && forall i :: 0 <= i < |events| ==> EventAt(p, ss, events, i)
  }

  ghost predicate EventAt(p: Peer, ss: seq<State>, events: seq<Event>, i: int)
    requires 0 <= i < |events| < |ss|
  {
    Happens(p, ss[i], events[i], ss[i + 1])
  }

  // ----- The local table holds the last row kept for each candidate -----

  /** The last of the rows for a candidate. */
  function LastIn(kept: seq<PeerSnap>, c: string): Option<PeerSnap> {
    if LastFor(kept, c) > 0 then Some(kept[LastFor(kept, c) - 1]) else None
  }

  lemma LastInIs(kept: seq<PeerSnap>, c: string)
    ensures LastIn(kept, c).Some? ==> LastIn(kept, c).value in kept && LastIn(kept, c).value.candidate == c
    ensures LastIn(kept, c).None? ==> forall r :: r in kept ==> r.candidate != c
  {
    if LastIn(kept, c).None? {
      forall r | r in kept
        ensures r.candidate != c
      {
        var i :| 0 <= i < |kept| && kept[i] == r;
        if r.candidate == c {
          LastForIsLast(kept, c, i);
        }
      }
    }
  }

  /** What each event stored. */
  function Keeps(ss: seq<State>, events: seq<Event>): (kepts: seq<seq<PeerSnap>>)
    requires |events| < |ss|
    ensures |kepts| == |events| && forall i :: 0 <= i < |events| ==> kepts[i] == KeptBy(ss[i], events[i])
  {
    seq(|events|, i requires 0 <= i < |events| => KeptBy(ss[i], events[i]))
  }

  /** The row that the first `n` events stored last for a candidate. */
  function LastKept(kepts: seq<seq<PeerSnap>>, n: nat, c: string): Option<PeerSnap>
    requires n <= |kepts|
  {
    if n == 0 then None
    else if LastIn(kepts[n - 1], c).Some? then LastIn(kepts[n - 1], c)
    else LastKept(kepts, n - 1, c)
  }

  /** The row holds what was kept last, or nothing of the peer's. */
  predicate Reads(p: Peer, rows: map<string, FedRow>, c: string, last: Option<PeerSnap>) {
    match last
    case Some(r) => c in rows && rows[c] == RowFor(p.id, p.endpoint, r)
    case None => c in rows ==> rows[c].peer != p.id
  }

  lemma {:induction false} TablesAreOk(p: Peer, ss: seq<State>, events: seq<Event>, n: nat)
    requires IsHistory(p, ss, events) && n < |ss|
    ensures TableOk(p, ss[n].table, ss[n].clock)
  {
    if n > 0 {
      TablesAreOk(p, ss, events, n - 1);
      assert EventAt(p, ss, events, n - 1);
    }
  }

  /** A kept row stood in the peer's table at that moment, past the cursor. */
  lemma KeptStood(s: State, e: Event, r: PeerSnap)
    requires Ascending(s.table) && r in KeptBy(s, e)
    ensures r in s.table && (e.Round? ==> r.ingestedAt > e.since)
  {
    var since, failed := if e.Round? then e.since else 0, e.failed;
    var page := Page(s.table, since);
    var j :| 0 <= j < |Kept(page, failed)| && Kept(page, failed)[j] == r;
    var i := KeptAt(page, failed, j);
    PageOf(s.table, since);
    assert page[i] == s.table[FirstAfter(s.table, since) + i];
  }

  /** The event that kept the last row for a candidate. */
  lemma {:induction false} LastKeptAt(kepts: seq<seq<PeerSnap>>, n: nat, c: string) returns (j: nat)
    requires n <= |kepts| && LastKept(kepts, n, c).Some?
    ensures j < n && LastIn(kepts[j], c) == LastKept(kepts, n, c)
    ensures forall i :: j < i < n ==> LastIn(kepts[i], c).None?
  {
    if LastIn(kepts[n - 1], c).Some? {
      j := n - 1;
    } else {
      j := LastKeptAt(kepts, n - 1, c);
    }
  }

  lemma KeptIsOwned(p: Peer, ss: seq<State>, events: seq<Event>, n: nat, c: string)
    requires IsHistory(p, ss, events) && n <= |events| && LastKept(Keeps(ss, events), n, c).Some?
    ensures p.owns(c)
  {
    var j := LastKeptAt(Keeps(ss, events), n, c);
    LastInIs(KeptBy(ss[j], events[j]), c);
    TablesAreOk(p, ss, events, j);
    KeptStood(ss[j], events[j], LastKept(Keeps(ss, events), n, c).value);
  }

  lemma StoredReads(p: Peer, rows: map<string, FedRow>, kept: seq<PeerSnap>, c: string, before: Option<PeerSnap>)
    requires Reads(p, rows, c, before)
    ensures Reads(p, Stored(rows, p.id, p.endpoint, kept), c, if LastIn(kept, c).Some? then LastIn(kept, c) else before)
  {
    StoredRow(rows, p.id, p.endpoint, kept, c);
  }

  /** Whatever the peer does to its table, whichever inserts fail, and even through restarts: the local table
      holds, for each candidate, the row the peer's rounds stored last. */
  lemma {:induction false} RowIsLastKept(p: Peer, ss: seq<State>, events: seq<Event>, n: nat, c: string)
    requires IsHistory(p, ss, events) && n <= |events|
    ensures Reads(p, ss[n].rows, c, LastKept(Keeps(ss, events), n, c))
  {
    if n == 0 {
      ReadsAtFirst(p, ss, events, c);
    } else {
      var m := n - 1;
      RowIsLastKept(p, ss, events, m, c);
      ReadsOn(p, ss, events, m, c);
      assert m + 1 == n;
    }
  }

  lemma ReadsAtFirst(p: Peer, ss: seq<State>, events: seq<Event>, c: string)
    requires IsHistory(p, ss, events)
    ensures Reads(p, ss[0].rows, c, LastKept(Keeps(ss, events), 0, c))
  {
  }

  lemma ReadsOn(p: Peer, ss: seq<State>, events: seq<Event>, n: nat, c: string)
    requires IsHistory(p, ss, events) && n < |events| && Reads(p, ss[n].rows, c, LastKept(Keeps(ss, events), n, c))
    ensures Reads(p, ss[n + 1].rows, c, LastKept(Keeps(ss, events), n + 1, c))
  {
    assert EventAt(p, ss, events, n);
    var s, e := ss[n], events[n];
    StoredReads(p, s.rows, KeptBy(s, e), c, LastKept(Keeps(ss, events), n, c));
    if e.Theirs? && LastKept(Keeps(ss, events), n, c).Some? {
      KeptIsOwned(p, ss, events, n, c);
    }
  }

  lemma RowIsOwned(p: Peer, ss: seq<State>, events: seq<Event>, m: nat, c: string)
    requires IsHistory(p, ss, events) && m < |ss| && c in ss[m].rows && ss[m].rows[c].peer == p.id
    ensures p.owns(c)
  {
    RowIsLastKept(p, ss, events, m, c);
    KeptIsOwned(p, ss, events, m, c);
  }

  /** A local row stays as it is until a round stores another for its candidate: a snapshot that was revoked,
      or pushed again and not received yet, stays stale locally. */
  lemma {:induction false} StaleRowStays(p: Peer, ss: seq<State>, events: seq<Event>, m: nat, n: nat, c: string)
    requires IsHistory(p, ss, events) && m <= n < |ss| && c in ss[m].rows && ss[m].rows[c].peer == p.id
    requires forall i :: m <= i < n ==> LastIn(KeptBy(ss[i], events[i]), c).None?
    ensures c in ss[n].rows && ss[n].rows[c] == ss[m].rows[c]
  {
    if m < n {
      StaleRowStays(p, ss, events, m, n - 1, c);
      assert EventAt(p, ss, events, n - 1);
      StoredRow(ss[n - 1].rows, p.id, p.endpoint, KeptBy(ss[n - 1], events[n - 1]), c);
      RowIsOwned(p, ss, events, m, c);
    }
  }

  /** In particular a candidate that has left the peer's table for good keeps its last local row for good. */
  lemma RevokedRowStays(p: Peer, ss: seq<State>, events: seq<Event>, m: nat, n: nat, c: string)
    requires IsHistory(p, ss, events) && m <= n < |ss| && c in ss[m].rows && ss[m].rows[c].peer == p.id
    requires forall i :: m <= i < n ==> LastIn(ss[i].table, c).None?
    ensures c in ss[n].rows && ss[n].rows[c] == ss[m].rows[c]
  {
    forall i | m <= i < n
      ensures LastIn(KeptBy(ss[i], events[i]), c).None?
    {
      TablesAreOk(p, ss, events, i);
      AbsentIsNotKept(ss[i], events[i], c);
    }
    StaleRowStays(p, ss, events, m, n, c);
  }

  lemma AbsentIsNotKept(s: State, e: Event, c: string)
    requires Ascending(s.table) && LastIn(s.table, c).None?
    ensures LastIn(KeptBy(s, e), c).None?
  {
    LastInIs(KeptBy(s, e), c);
    LastInIs(s.table, c);
    if LastIn(KeptBy(s, e), c).Some? {
      KeptStood(s, e, LastIn(KeptBy(s, e), c).value);
    }
  }

  // ----- Which round decides about a row -----

  predicate NoRestart(events: seq<Event>, n: nat)
    requires n <= |events|
  {
    forall i :: 0 <= i < n ==> !events[i].Restart?
  }

  /** The cursor after the first `n` events: the timestamp of the last row stored. */
  function Cursor(kepts: seq<seq<PeerSnap>>, n: nat): int
    requires n <= |kepts|
  {
    if n == 0 then 0
    else if kepts[n - 1] == [] then Cursor(kepts, n - 1)
    else kepts[n - 1][|kepts[n - 1]| - 1].ingestedAt
  }

  lemma OneCursor(rows: map<string, FedRow>, peer: string, a: int, b: int)
    requires IsCursor(rows, peer, a) && IsCursor(rows, peer, b)
    ensures a == b
  {
  }

  /** Storing newer rows in ascending order moves the cursor to the last of them. */
  lemma StoringMovesCursor(p: Peer, rows: map<string, FedRow>, kept: seq<PeerSnap>, since: int)
    requires IsCursor(rows, p.id, since) && Ascending(kept) && kept != []
    requires forall j :: 0 <= j < |kept| ==> kept[j].ingestedAt > since
    ensures IsCursor(Stored(rows, p.id, p.endpoint, kept), p.id, kept[|kept| - 1].ingestedAt)
  {
    var rows', last := Stored(rows, p.id, p.endpoint, kept), kept[|kept| - 1];
    forall c | c in rows' && rows'[c].peer == p.id
      ensures rows'[c].ingestedAt <= last.ingestedAt
    {
      StoredRow(rows, p.id, p.endpoint, kept, c);
    }
    StoredRow(rows, p.id, p.endpoint, kept, last.candidate);
    assert rows'[last.candidate].ingestedAt == last.ingestedAt;
  }

  lemma KeptByAscends(s: State, e: Event)
    requires Ascending(s.table)
    ensures Ascending(KeptBy(s, e))
    ensures forall j :: 0 <= j < |KeptBy(s, e)| && e.Round? ==> KeptBy(s, e)[j].ingestedAt > e.since
  {
    if e.Round? || e.Restart? {
      var since := if e.Round? then e.since else 0;
      PageOf(s.table, since);
      KeptAscends(Page(s.table, since), e.failed);
      forall j | 0 <= j < |KeptBy(s, e)|
        ensures KeptBy(s, e)[j].ingestedAt > since
      {
        var i := KeptAt(Page(s.table, since), e.failed, j);
      }
    }
  }

  lemma TheirsKeepCursor(p: Peer, rows: map<string, FedRow>, rows': map<string, FedRow>, cursor: int)
    requires LeavesOwn(p, rows, rows') && IsCursor(rows, p.id, cursor)
    requires forall c :: c in rows && rows[c].peer == p.id ==> p.owns(c)
    ensures IsCursor(rows', p.id, cursor)
  {
    if c :| c in rows && rows[c].peer == p.id && rows[c].ingestedAt == cursor {
      assert p.owns(c) && rows'[c] == rows[c];
    }
  }

  /** Without restarts every round begins at the cursor, which only moves forward. */
  lemma {:induction false} CursorIs(p: Peer, ss: seq<State>, events: seq<Event>, n: nat)
    requires IsHistory(p, ss, events) && n <= |events| && NoRestart(events, n)
    ensures IsCursor(ss[n].rows, p.id, Cursor(Keeps(ss, events), n))
  {
    if n > 0 {
      CursorIs(p, ss, events, n - 1);
      assert EventAt(p, ss, events, n - 1);
      var s, e := ss[n - 1], events[n - 1];
      if e.Round? {
        OneCursor(s.rows, p.id, e.since, Cursor(Keeps(ss, events), n - 1));
        TablesAreOk(p, ss, events, n - 1);
        KeptByAscends(s, e);
        if KeptBy(s, e) != [] {
          StoringMovesCursor(p, s.rows, KeptBy(s, e), e.since);
        }
      } else if e.Theirs? {
        forall c | c in s.rows && s.rows[c].peer == p.id
          ensures p.owns(c)
        {
          RowIsOwned(p, ss, events, n - 1, c);
        }
        TheirsKeepCursor(p, s.rows, e.rows, Cursor(Keeps(ss, events), n - 1));
      }
    }
  }

  lemma RoundBegins(p: Peer, ss: seq<State>, events: seq<Event>, k: nat)
    requires IsHistory(p, ss, events) && k < |events| && NoRestart(events, k + 1)
    ensures events[k].Round? ==> events[k].since == Cursor(Keeps(ss, events), k)
    ensures Cursor(Keeps(ss, events), k) <= Cursor(Keeps(ss, events), k + 1)
    ensures Cursor(Keeps(ss, events), k) < Cursor(Keeps(ss, events), k + 1) ==> events[k].Round?
  {
    CursorIs(p, ss, events, k);
    assert EventAt(p, ss, events, k);
    TablesAreOk(p, ss, events, k);
    KeptByAscends(ss[k], events[k]);
    if events[k].Round? {
      OneCursor(ss[k].rows, p.id, events[k].since, Cursor(Keeps(ss, events), k));
    }
  }

  lemma {:induction false} CursorClimbs(kepts: seq<seq<PeerSnap>>, m: nat, n: nat)
    requires m <= n <= |kepts| && forall k :: m <= k < n ==> Cursor(kepts, k) <= Cursor(kepts, k + 1)
    ensures Cursor(kepts, m) <= Cursor(kepts, n)
    decreases n - m
  {
    if m < n {
      CursorClimbs(kepts, m + 1, n);
    }
  }

  lemma CursorMonotone(p: Peer, ss: seq<State>, events: seq<Event>, m: nat, n: nat)
    requires IsHistory(p, ss, events) && m <= n <= |events| && NoRestart(events, n)
    ensures Cursor(Keeps(ss, events), m) <= Cursor(Keeps(ss, events), n)
  {
    var kepts := Keeps(ss, events);
    forall k | m <= k < n
      ensures Cursor(kepts, k) <= Cursor(kepts, k + 1)
    {
      RoundBegins(p, ss, events, k);
    }
    CursorClimbs(kepts, m, n);
  }

  /** Event `k` moves the cursor past time `t`. */
  predicate Passes(kepts: seq<seq<PeerSnap>>, k: nat, t: int)
    requires k < |kepts|
  {
    Cursor(kepts, k) < t <= Cursor(kepts, k + 1)
  }

  lemma {:induction false} PassingRound(kepts: seq<seq<PeerSnap>>, n: nat, t: int) returns (k: nat)
    requires n <= |kepts| && 0 < t <= Cursor(kepts, n)
    ensures k < n && Passes(kepts, k, t)
  {
    if Cursor(kepts, n - 1) < t {
      k := n - 1;
    } else {
      k := PassingRound(kepts, n - 1, t);
    }
  }

  predicate CursorsGrow(kepts: seq<seq<PeerSnap>>, n: nat)
    requires n <= |kepts|
  {
    forall i, j :: 0 <= i <= j <= n ==> Cursor(kepts, i) <= Cursor(kepts, j)
  }

  lemma CursorsDoGrow(p: Peer, ss: seq<State>, events: seq<Event>, n: nat)
    requires IsHistory(p, ss, events) && n <= |events| && NoRestart(events, n)
    ensures CursorsGrow(Keeps(ss, events), n)
  {
    forall i, j | 0 <= i <= j <= n
      ensures Cursor(Keeps(ss, events), i) <= Cursor(Keeps(ss, events), j)
    {
      CursorMonotone(p, ss, events, i, j);
    }
  }

  lemma PassedBefore(kepts: seq<seq<PeerSnap>>, n: nat, j: nat, k: nat, t: int, u: int)
    requires n <= |kepts| && CursorsGrow(kepts, n) && j < k < n && Passes(kepts, j, t) && Passes(kepts, k, u)
    ensures t < u
  {
    assert Cursor(kepts, j + 1) <= Cursor(kepts, k);
  }

  lemma OnePassingRound(kepts: seq<seq<PeerSnap>>, n: nat, j: nat, k: nat, t: int)
    requires n <= |kepts| && CursorsGrow(kepts, n) && j < n && k < n && Passes(kepts, j, t) && Passes(kepts, k, t)
    ensures j == k
  {
    if j < k {
      PassedBefore(kepts, n, j, k, t, t);
    } else if k < j {
      PassedBefore(kepts, n, k, j, t, t);
    }
  }

  lemma KeptIsPast(p: Peer, ss: seq<State>, events: seq<Event>, j: nat, r: PeerSnap)
    requires IsHistory(p, ss, events) && j < |events| && NoRestart(events, j + 1) && r in KeptBy(ss[j], events[j])
    ensures Cursor(Keeps(ss, events), j) < r.ingestedAt
  {
    TablesAreOk(p, ss, events, j);
    KeptByAscends(ss[j], events[j]);
    RoundBegins(p, ss, events, j);
    assert !events[j].Restart?;
    var i :| 0 <= i < |KeptBy(ss[j], events[j])| && KeptBy(ss[j], events[j])[i] == r;
  }

  lemma KeptIsCovered(kepts: seq<seq<PeerSnap>>, j: nat, r: PeerSnap)
    requires j < |kepts| && Ascending(kepts[j]) && r in kepts[j]
    ensures r.ingestedAt <= Cursor(kepts, j + 1)
  {
    var i :| 0 <= i < |kepts[j]| && kepts[j][i] == r;
    assert i < |kepts[j]| - 1 ==> kepts[j][i].ingestedAt <= kepts[j][|kepts[j]| - 1].ingestedAt;
  }

  /** A kept row lies between the cursors around its round. */
  lemma KeptIsPassed(p: Peer, ss: seq<State>, events: seq<Event>, j: nat, r: PeerSnap)
    requires IsHistory(p, ss, events) && j < |events| && NoRestart(events, j + 1) && r in KeptBy(ss[j], events[j])
    ensures Passes(Keeps(ss, events), j, r.ingestedAt)
  {
    KeptIsPast(p, ss, events, j, r);
    TablesAreOk(p, ss, events, j);
    KeptByAscends(ss[j], events[j]);
    KeptIsCovered(Keeps(ss, events), j, r);
  }

  /** A row that has given way to a newer one of its candidate does not come back. */
  lemma {:induction false} OldRowIsGone(p: Peer, ss: seq<State>, events: seq<Event>, j: nat, n: nat, older: PeerSnap,
                                        newer: PeerSnap)
    requires IsHistory(p, ss, events) && j <= n < |ss| && newer in ss[j].table
    requires older.candidate == newer.candidate && older.ingestedAt < newer.ingestedAt
    ensures older !in ss[n].table && newer.ingestedAt <= ss[n].clock
  {
    TablesAreOk(p, ss, events, n);
    if n == j {
      var i :| 0 <= i < |ss[j].table| && ss[j].table[i] == newer;
    } else {
      OldRowIsGone(p, ss, events, j, n - 1, older, newer);
      assert EventAt(p, ss, events, n - 1);
    }
  }

  predicate Like(p: Peer, r: PeerSnap, s: PeerSnap) {
    r.candidate == s.candidate && RowFor(p.id, p.endpoint, r) == RowFor(p.id, p.endpoint, s)
  }

  /** The event stores a row that reads like `s` locally. */
  ghost predicate StoresLike(p: Peer, ss: seq<State>, events: seq<Event>, k: nat, s: PeerSnap)
    requires k < |events| < |ss|
  {
    exists r :: r in KeptBy(ss[k], events[k]) && Like(p, r, s)
  }

  /** A held row was stored by the round that passed its timestamp. */
  lemma HeldWasStored(p: Peer, ss: seq<State>, events: seq<Event>, n: nat, s: PeerSnap) returns (j: nat)
    requires IsHistory(p, ss, events) && n <= |events| && NoRestart(events, n)
    requires HasRow(ss[n].rows, p.id, p.endpoint, s)
    ensures j < n && Passes(Keeps(ss, events), j, s.ingestedAt) && StoresLike(p, ss, events, j, s)
  {
    RowIsLastKept(p, ss, events, n, s.candidate);
    j := LastKeptAt(Keeps(ss, events), n, s.candidate);
    LastInIs(KeptBy(ss[j], events[j]), s.candidate);
    var r := LastKept(Keeps(ss, events), n, s.candidate).value;
    assert r in KeptBy(ss[j], events[j]) && Like(p, r, s);
    KeptIsPassed(p, ss, events, j, r);
  }

  /** A newer row of the candidate is never kept while `s` is still to be in the table. */
  lemma NothingNewerKept(p: Peer, ss: seq<State>, events: seq<Event>, n: nat, s: PeerSnap, k: nat, j: nat, r: PeerSnap)
    requires IsHistory(p, ss, events) && n <= |events| && NoRestart(events, n) && s in ss[n].table && k < j < n
    requires Passes(Keeps(ss, events), k, s.ingestedAt) && r in KeptBy(ss[j], events[j])
    ensures r.candidate != s.candidate
  {
    TablesAreOk(p, ss, events, j);
    KeptStood(ss[j], events[j], r);
    KeptIsPassed(p, ss, events, j, r);
    CursorsDoGrow(p, ss, events, n);
    PassedBefore(Keeps(ss, events), n, k, j, s.ingestedAt, r.ingestedAt);
    if r.candidate == s.candidate {
      OldRowIsGone(p, ss, events, j, n, s, r);
    }
  }

  /** A round stores one row for a candidate. */
  lemma KeptOnce(p: Peer, s: State, e: Event, a: PeerSnap, b: PeerSnap)
    requires TableOk(p, s.table, s.clock) && a in KeptBy(s, e) && b in KeptBy(s, e) && a.candidate == b.candidate
    ensures a == b
  {
    KeptStood(s, e, a);
    KeptStood(s, e, b);
  }

  lemma {:induction false} KeptIsLast(kepts: seq<seq<PeerSnap>>, n: nat, k: nat, c: string)
    requires k < n <= |kepts| && LastIn(kepts[k], c).Some?
    requires forall i :: k < i < n ==> LastIn(kepts[i], c).None?
    ensures LastKept(kepts, n, c) == LastIn(kepts[k], c)
  {
    if k < n - 1 {
      KeptIsLast(kepts, n - 1, k, c);
    }
  }

  /** A row of the present table that was stored by the round that passed its timestamp is held. */
  lemma StoredIsHeld(p: Peer, ss: seq<State>, events: seq<Event>, n: nat, s: PeerSnap, k: nat)
    requires IsHistory(p, ss, events) && n <= |events| && NoRestart(events, n) && s in ss[n].table && k < n
    requires Passes(Keeps(ss, events), k, s.ingestedAt) && StoresLike(p, ss, events, k, s)
    ensures HasRow(ss[n].rows, p.id, p.endpoint, s)
  {
    var c := s.candidate;
    var r :| r in KeptBy(ss[k], events[k]) && Like(p, r, s);
    forall i | k < i < n
      ensures LastIn(KeptBy(ss[i], events[i]), c).None?
    {
      LastInIs(KeptBy(ss[i], events[i]), c);
      if LastIn(KeptBy(ss[i], events[i]), c).Some? {
        NothingNewerKept(p, ss, events, n, s, k, i, LastIn(KeptBy(ss[i], events[i]), c).value);
      }
    }
    LastInIs(KeptBy(ss[k], events[k]), c);
    TablesAreOk(p, ss, events, k);
    KeptOnce(p, ss[k], events[k], r, LastIn(KeptBy(ss[k], events[k]), c).value);
    KeptIsLast(Keeps(ss, events), n, k, c);
    RowIsLastKept(p, ss, events, n, c);
  }

  /** The row was passed by a round that stored it. */
  ghost predicate StoredWhenPassed(p: Peer, ss: seq<State>, events: seq<Event>, n: nat, s: PeerSnap)
    requires n <= |events| < |ss|
  {
    exists k :: 0 <= k < n && Passes(Keeps(ss, events), k, s.ingestedAt) && StoresLike(p, ss, events, k, s)
  }

  /** A row of the peer's present table is held locally if and only if the round that moved the cursor past
      its timestamp stored it. */
  lemma HeldIff(p: Peer, ss: seq<State>, events: seq<Event>, n: nat, s: PeerSnap)
    requires IsHistory(p, ss, events) && n <= |events| && NoRestart(events, n) && s in ss[n].table
    ensures HasRow(ss[n].rows, p.id, p.endpoint, s) <==> StoredWhenPassed(p, ss, events, n, s)
  {
    if StoredWhenPassed(p, ss, events, n, s) {
      var k :| 0 <= k < n && Passes(Keeps(ss, events), k, s.ingestedAt) && StoresLike(p, ss, events, k, s);
      StoredIsHeld(p, ss, events, n, s, k);
    }
    if HasRow(ss[n].rows, p.id, p.endpoint, s) {
      var j := HeldWasStored(p, ss, events, n, s);
    }
  }

  /** A row that some round passed without storing it is missing as long as it stays in the peer's table. */
  lemma PassedWithoutIsMissing(p: Peer, ss: seq<State>, events: seq<Event>, n: nat, s: PeerSnap, k: nat)
    requires IsHistory(p, ss, events) && n <= |events| && NoRestart(events, n) && s in ss[n].table
    requires k < n && Passes(Keeps(ss, events), k, s.ingestedAt) && !StoresLike(p, ss, events, k, s)
    ensures !HasRow(ss[n].rows, p.id, p.endpoint, s)
  {
    if HasRow(ss[n].rows, p.id, p.endpoint, s) {
      var j := HeldWasStored(p, ss, events, n, s);
      CursorsDoGrow(p, ss, events, n);
      OnePassingRound(Keeps(ss, events), n, j, k, s.ingestedAt);
    }
  }

  /** Sync with a changing peer: without restarts the local table has every row of the peer's present table
      if and only if no row is newer than the cursor and each was stored by the round that passed its
      timestamp. So a row is missing exactly if it is newer than the cursor, or came in, was cut off or failed
      to be inserted in a second that the cursor has passed. */
  lemma ChangingSyncIsCompleteIff(p: Peer, ss: seq<State>, events: seq<Event>, n: nat)
    requires IsHistory(p, ss, events) && n <= |events| && NoRestart(events, n)
    ensures Complete(ss[n].rows, p.id, p.endpoint, ss[n].table) <==>
            forall s :: s in ss[n].table ==>
                          s.ingestedAt <= Cursor(Keeps(ss, events), n) &&
                          forall k :: 0 <= k < n && Passes(Keeps(ss, events), k, s.ingestedAt) ==>
                                        StoresLike(p, ss, events, k, s)
  {
    TablesAreOk(p, ss, events, n);
    forall s | s in ss[n].table
      ensures HasRow(ss[n].rows, p.id, p.endpoint, s) <==>
              s.ingestedAt <= Cursor(Keeps(ss, events), n)
              && forall k :: 0 <= k < n && Passes(Keeps(ss, events), k, s.ingestedAt) ==>
                               StoresLike(p, ss, events, k, s)
    {
      HeldExactly(p, ss, events, n, s);
    }
    RowsOfTable(ss[n].rows, p, ss[n].table);
  }

  lemma RowsOfTable(rows: map<string, FedRow>, p: Peer, table: seq<PeerSnap>)
    ensures Complete(rows, p.id, p.endpoint, table) <==>
            forall s :: s in table ==> HasRow(rows, p.id, p.endpoint, s)
  {
    if Complete(rows, p.id, p.endpoint, table) {
      forall s | s in table
        ensures HasRow(rows, p.id, p.endpoint, s)
      {
        var i :| 0 <= i < |table| && table[i] == s;
      }
    }
  }

  lemma HeldExactly(p: Peer, ss: seq<State>, events: seq<Event>, n: nat, s: PeerSnap)
    requires IsHistory(p, ss, events) && n <= |events| && NoRestart(events, n) && s in ss[n].table
    ensures HasRow(ss[n].rows, p.id, p.endpoint, s) <==>
            s.ingestedAt <= Cursor(Keeps(ss, events), n)
            && forall k :: 0 <= k < n && Passes(Keeps(ss, events), k, s.ingestedAt) ==> StoresLike(p, ss, events, k, s)
  {
    TablesAreOk(p, ss, events, n);
    HeldIff(p, ss, events, n, s);
    if StoredWhenPassed(p, ss, events, n, s) {
      var j :| 0 <= j < n && Passes(Keeps(ss, events), j, s.ingestedAt) && StoresLike(p, ss, events, j, s);
      CursorsDoGrow(p, ss, events, n);
      assert Cursor(Keeps(ss, events), j + 1) <= Cursor(Keeps(ss, events), n);
      forall k | 0 <= k < n && Passes(Keeps(ss, events), k, s.ingestedAt)
        ensures StoresLike(p, ss, events, k, s)
      {
        OnePassingRound(Keeps(ss, events), n, j, k, s.ingestedAt);
      }
    } else if s.ingestedAt <= Cursor(Keeps(ss, events), n) {
      var k := PassingRound(Keeps(ss, events), n, s.ingestedAt);
    }
  }

  // ----- What the peer's own catalog does to the table -----

  /** The table lists the snapshots of the peer's catalog. */
  ghost predicate Lists(table: seq<PeerSnap>, snapshots: map<(string, string), Snapshot>) {
    forall s :: s in table <==> (s.nodeId, s.candidate) in snapshots && s == Row(snapshots, (s.nodeId, s.candidate))
  }

  function Row(snapshots: map<(string, string), Snapshot>, k: (string, string)): PeerSnap
    requires k in snapshots
  {
    PeerSnap(k.1, snapshots[k].payload, k.0, snapshots[k].ingestedAt)
  }

  /** A push, new or repeated, is such a change. */
  lemma PushChanges(table: seq<PeerSnap>, table': seq<PeerSnap>, snapshots: map<(string, string), Snapshot>,
                    node: string, input: C.Input, sig: bytes, clock: int, now: int)
    requires Lists(table, snapshots) && Lists(table', C.WithSnapshot(snapshots, node, input, sig, now)) && clock <= now
    ensures Changes(table, clock, table', now)
  {
  }

  /** A revocation is such a change. */
  lemma RevocationChanges(table: seq<PeerSnap>, table': seq<PeerSnap>, cat: Catalog, node: string,
                          luck: C.RevokeLuck, clock: int)
    requires Lists(table, cat.snapshots) && Lists(table', C.Dropped(cat, node, luck).snapshots)
    ensures Changes(table, clock, table', clock)
  {
  }
}
