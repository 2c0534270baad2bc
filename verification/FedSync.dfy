/** Cursor-paged replication of a peer's snapshots. */
module FedSync {
  import opened Basics
  import opened Schema
  import Utf8

  const PAGE: nat := 100
  const PREVIEW: nat := 2048

  datatype PeerSnap = PeerSnap(candidate: string, payload: bytes, nodeId: string, ingestedAt: int)

  // A row of federated_snapshots; the table is keyed by candidate, whichever peer supplied it.
  datatype FedRow = FedRow(peer: string, preview: bytes, originNode: string, originEndpoint: string, ingestedAt: int)

  predicate Ascending(remote: seq<PeerSnap>) {
    forall i, j :: 0 <= i < j < |remote| ==> remote[i].ingestedAt <= remote[j].ingestedAt
  }

  // ----- Serving a page -----

  /** The first position whose timestamp is past `since`. */
  function FirstAfter(remote: seq<PeerSnap>, since: int): (k: nat)
    ensures k <= |remote|
  {
    FirstAfterFrom(remote, since, 0)
  }

  function FirstAfterFrom(remote: seq<PeerSnap>, since: int, i: nat): (k: nat)
    requires i <= |remote|
    ensures i <= k <= |remote|
    decreases |remote| - i
  {
    if i == |remote| || remote[i].ingestedAt > since then i else FirstAfterFrom(remote, since, i + 1)
  }

  function PageEnd(remote: seq<PeerSnap>, start: nat): (k: nat)
    requires start <= |remote|
    ensures start <= k <= |remote|
  {
    if start + PAGE <= |remote| then start + PAGE else |remote|
  }

  function Page(remote: seq<PeerSnap>, since: int): seq<PeerSnap> {
    remote[FirstAfter(remote, since)..PageEnd(remote, FirstAfter(remote, since))]
  }

  lemma {:induction false} FirstAfterSplits(remote: seq<PeerSnap>, since: int, from: nat)
    requires from <= |remote|
    ensures var k := FirstAfterFrom(remote, since, from);
            && (forall i :: from <= i < k ==> remote[i].ingestedAt <= since)
            && (k < |remote| ==> remote[k].ingestedAt > since)
    decreases |remote| - from
  {
    if from < |remote| && remote[from].ingestedAt <= since {
      FirstAfterSplits(remote, since, from + 1);
    }
  }

  lemma FirstAfterIs(remote: seq<PeerSnap>, since: int, k: nat)
    requires k <= |remote| && forall i :: 0 <= i < k ==> remote[i].ingestedAt <= since
    requires k < |remote| ==> remote[k].ingestedAt > since
    ensures FirstAfter(remote, since) == k
  {
    FirstAfterSplits(remote, since, 0);
  }

  /** The peer's answer: its rows in ascending order of ingestion, past the cursor, one page of them. */
  method ServeSnapshots(remote: seq<PeerSnap>, since: int) returns (page: seq<PeerSnap>)
    ensures page == Page(remote, since)
  {
    var i := 0;
    while i < |remote| && remote[i].ingestedAt <= since
      invariant 0 <= i <= |remote|
      invariant forall k :: 0 <= k < i ==> remote[k].ingestedAt <= since
    {
      i := i + 1;
    }
    FirstAfterIs(remote, since, i);
    ghost var start := i;
    page := [];
    while i < |remote| && |page| < PAGE
      invariant start <= i <= |remote| && |page| == i - start <= PAGE
      invariant page == remote[start..i]
    {
      page := page + [remote[i]];
      i := i + 1;
    }
  }

  // ----- Storing a page -----

  function RowFor(peer: string, endpoint: string, s: PeerSnap): FedRow {
    FedRow(peer, Utf8.Preview(s.payload, PREVIEW), s.nodeId, endpoint, s.ingestedAt)
  }

  /** The rows of a page whose insert succeeds; `failed` holds the positions of the others. */
  function Kept(page: seq<PeerSnap>, failed: set<nat>): seq<PeerSnap> {
    if page == [] then [] else
    var n := |page| - 1;
    Kept(page[..n], failed) + if n in failed then [] else [page[n]]
  }

  function Stored(rows: map<string, FedRow>, peer: string, endpoint: string, kept: seq<PeerSnap>): map<string, FedRow> {
    if kept == [] then rows else
    var n := |kept| - 1;
    Stored(rows, peer, endpoint, kept[..n])[kept[n].candidate := RowFor(peer, endpoint, kept[n])]
  }

  function Indexed(kept: seq<PeerSnap>): seq<IndexRow<bytes>> {
    if kept == [] then [] else
    var n := |kept| - 1;
    Indexed(kept[..n]) + [IndexRow(kept[n].candidate, Utf8.Preview(kept[n].payload, PREVIEW))]
  }

  lemma KeptNext(page: seq<PeerSnap>, failed: set<nat>, i: nat)
    requires i < |page|
    ensures Kept(page[..i + 1], failed) == Kept(page[..i], failed) + if i in failed then [] else [page[i]]
  {
    assert page[..i + 1][..i] == page[..i];
  }

  lemma StoredNext(rows: map<string, FedRow>, peer: string, endpoint: string, page: seq<PeerSnap>, failed: set<nat>,
                   i: nat)
    requires i < |page|
    ensures var before := Stored(rows, peer, endpoint, Kept(page[..i], failed));
            Stored(rows, peer, endpoint, Kept(page[..i + 1], failed)) ==
            if i in failed then before else before[page[i].candidate := RowFor(peer, endpoint, page[i])]
  {
    KeptNext(page, failed, i);
    var kept := Kept(page[..i], failed);
    assert (kept + [page[i]])[..|kept|] == kept && kept + [] == kept;
  }

  lemma IndexedNext(page: seq<PeerSnap>, failed: set<nat>, i: nat)
    requires i < |page|
    ensures Indexed(Kept(page[..i + 1], failed)) ==
            Indexed(Kept(page[..i], failed))
            + if i in failed then [] else [IndexRow(page[i].candidate, Utf8.Preview(page[i].payload, PREVIEW))]
  {
    KeptNext(page, failed, i);
    var kept := Kept(page[..i], failed);
    assert (kept + [page[i]])[..|kept|] == kept && kept + [] == kept;
  }

  /** The newest timestamp stored for the peer, 0 if there is none. */
  ghost predicate IsCursor(rows: map<string, FedRow>, peer: string, cursor: int) {
    && (forall c :: c in rows && rows[c].peer == peer ==> rows[c].ingestedAt <= cursor)
    && (|| (cursor == 0 && forall c :: c in rows ==> rows[c].peer != peer)
        || exists c :: c in rows && rows[c].peer == peer && rows[c].ingestedAt == cursor)
  }

  class Syncer {
    var rows: map<string, FedRow>
    var fts: seq<IndexRow<bytes>>
    var lastSeen: map<string, int>

    constructor ()
      ensures rows == map[] && fts == [] && lastSeen == map[]
    {
      rows, fts, lastSeen := map[], [], map[];
    }

    /** The error of the query is ignored; the cursor is 0 then. */
    method LastSyncFor(peer: string, up: bool) returns (cursor: int)
      ensures up ==> IsCursor(rows, peer, cursor)
      ensures !up ==> cursor == 0
    {
      if !up { return 0; }
      var found := false;
      cursor := 0;
      var rest := rows.Keys;
      while rest != {}
        invariant rest <= rows.Keys
        invariant !found ==> cursor == 0 && forall c :: c in rows.Keys - rest ==> rows[c].peer != peer
        invariant found ==> exists c :: c in rows && rows[c].peer == peer && rows[c].ingestedAt == cursor
        invariant forall c :: c in rows.Keys - rest && rows[c].peer == peer ==> rows[c].ingestedAt <= cursor
        decreases rest
      {
        var c :| c in rest;
        rest := rest - {c};
        if rows[c].peer == peer && (!found || rows[c].ingestedAt > cursor) {
          found, cursor := true, rows[c].ingestedAt;
        }
      }
    }

    /** The two inserts for one received row; each may fail by itself. */
    method StoreSnap(peer: string, endpoint: string, s: PeerSnap, rowUp: bool, ftsUp: bool)
      modifies `rows, `fts
      ensures rows == if rowUp then old(rows)[s.candidate := RowFor(peer, endpoint, s)] else old(rows)
      ensures fts ==
              if ftsUp then old(fts) + [IndexRow(s.candidate, Utf8.Preview(s.payload, PREVIEW))] else old(fts)
    {
      var preview := Utf8.Truncate(s.payload, PREVIEW);
      if rowUp {
        rows := rows[s.candidate := FedRow(peer, preview, s.nodeId, endpoint, s.ingestedAt)];
      }
      if ftsUp {
        fts := fts + [IndexRow(s.candidate, preview)];
      }
    }

    method StorePage(peer: string, endpoint: string, page: seq<PeerSnap>, rowsFailed: set<nat>, ftsFailed: set<nat>)
      modifies `rows, `fts
      ensures rows == Stored(old(rows), peer, endpoint, Kept(page, rowsFailed))
      ensures fts == old(fts) + Indexed(Kept(page, ftsFailed))
    {
      for i := 0 to |page|
        invariant rows == Stored(old(rows), peer, endpoint, Kept(page[..i], rowsFailed))
        invariant fts == old(fts) + Indexed(Kept(page[..i], ftsFailed))
      {
        StoredNext(old(rows), peer, endpoint, page, rowsFailed, i);
        IndexedNext(page, ftsFailed, i);
        StoreSnap(peer, endpoint, page[i], i !in rowsFailed, i !in ftsFailed);
      }
      assert page[..|page|] == page;
    }

    /** One round with a peer whose snapshot table reads `remote`. Nothing happens if the fetch fails; a
        failing insert of a row or of an index row is passed over. */
    method SyncPeer(peer: string, endpoint: string, remote: seq<PeerSnap>, cursorUp: bool, fetched: bool,
                    rowsFailed: set<nat>, ftsFailed: set<nat>, now: int)
      returns (since: int)
      modifies this
      ensures if cursorUp then IsCursor(old(rows), peer, since) else since == 0
      ensures rows ==
              if fetched then Stored(old(rows), peer, endpoint, Kept(Page(remote, since), rowsFailed)) else old(rows)
      ensures fts == if fetched then old(fts) + Indexed(Kept(Page(remote, since), ftsFailed)) else old(fts)
      ensures lastSeen == if fetched then old(lastSeen)[peer := Unix(now)] else old(lastSeen)
    {
      since := LastSyncFor(peer, cursorUp);
      if !fetched { return; }
      var page := ServeSnapshots(remote, since);
      StorePage(peer, endpoint, page, rowsFailed, ftsFailed);
      lastSeen := lastSeen[peer := Unix(now)];
    }
  }
}
