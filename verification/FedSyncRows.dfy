/** What a page brings and what a local row shows, field by field. */
module FedSyncRows {
  import opened Basics
  import opened Schema
  import opened FedSync
  import opened FedSyncTheorems
  import opened FedSyncChanges
  import Utf8

  /** A page starts with the first row past the cursor and goes on for a hundred rows, or to the end of the table. */
  lemma PageIsNextHundred(remote: seq<PeerSnap>, since: int) returns (k: nat)
    requires Ascending(remote)
    ensures k <= |remote| && forall i :: 0 <= i < |remote| ==> (remote[i].ingestedAt <= since <==> i < k)
    ensures |Page(remote, since)| == if |remote| - k > 100 then 100 else |remote| - k
    ensures forall i :: 0 <= i < |Page(remote, since)| ==> Page(remote, since)[i] == remote[k + i]
  {
    k := FirstAfter(remote, since);
    FirstAfterSplits(remote, since, 0);
  }

  /** The text kept of a payload: all of it up to 2048 bytes, otherwise a prefix of at most that length, which for
      valid UTF-8 is valid and gives up fewer than four bytes. */
  predicate IsPreview(payload: bytes, preview: bytes) {
    && |preview| <= 2048 && preview <= payload
    && (|payload| <= 2048 ==> preview == payload)
    && (Utf8.Valid(payload) ==> Utf8.Valid(preview) && (|payload| > 2048 ==> |preview| > 2044))
  }

  lemma PreviewIs(payload: bytes)
    ensures IsPreview(payload, Utf8.Preview(payload, PREVIEW))
  {
    if Utf8.Valid(payload) {
      Utf8.PreviewIsLongestValidPrefix(payload, PREVIEW);
    }
  }

  /** The local row shows this row of the peer. */
  predicate Shows(row: FedRow, p: Peer, r: PeerSnap) {
    && row.peer == p.id && row.originNode == r.nodeId && row.originEndpoint == p.endpoint
    && row.ingestedAt == r.ingestedAt && IsPreview(r.payload, row.preview)
  }

  /** Whatever the peer did meanwhile: a local row of the peer shows a row for its candidate that stood in the peer's
      table when a round stored it, and no later round stored one for that candidate. */
  lemma LocalRowShows(p: Peer, ss: seq<State>, events: seq<Event>, n: nat, c: string) returns (k: nat, r: PeerSnap)
    requires IsHistory(p, ss, events) && n <= |events| && c in ss[n].rows && ss[n].rows[c].peer == p.id
    ensures k < n && (events[k].Round? || events[k].Restart?) && r in KeptBy(ss[k], events[k]) && r in ss[k].table
    ensures r.candidate == c && Shows(ss[n].rows[c], p, r)
    ensures forall j :: k < j < n ==> forall s :: s in KeptBy(ss[j], events[j]) ==> s.candidate != c
  {
    RowIsLastKept(p, ss, events, n, c);
    var kepts := Keeps(ss, events);
    k := LastKeptAt(kepts, n, c);
    r := LastKept(kepts, n, c).value;
    LastInIs(kepts[k], c);
    TablesAreOk(p, ss, events, k);
    KeptStood(ss[k], events[k], r);
    PreviewIs(r.payload);
    forall j | k < j < n
      ensures forall s :: s in KeptBy(ss[j], events[j]) ==> s.candidate != c
    {
      LastInIs(kepts[j], c);
    }
  }

  /** A round adds one index row for each stored row, in order, with the candidate and the kept text. */
  lemma {:induction false} IndexRowsShow(kept: seq<PeerSnap>)
    ensures |Indexed(kept)| == |kept|
    ensures forall i :: 0 <= i < |kept| ==>
              Indexed(kept)[i].candidate == kept[i].candidate && IsPreview(kept[i].payload, Indexed(kept)[i].data)
  {
    if kept != [] {
      var n := |kept| - 1;
      IndexRowsShow(kept[..n]);
      PreviewIs(kept[n].payload);
    }
  }
}
