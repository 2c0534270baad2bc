/** The fixed-window rate limiter and its reaper. */
module RateLimit {

  datatype Entry = Entry(count: int, resetAt: int)

  predicate Opens(entries: map<string, Entry>, key: string, now: int) {
    key !in entries || now > entries[key].resetAt
  }

  function Admits(entries: map<string, Entry>, key: string, maxReqs: int, now: int): bool {
    Opens(entries, key, now) || entries[key].count < maxReqs
  }

  /** The entries after a call to `Allow`. */
  function Charged(entries: map<string, Entry>, key: string, maxReqs: int, window: int, now: int): map<string, Entry> {
    if Opens(entries, key, now) then entries[key := Entry(1, now + window)]
    else if entries[key].count < maxReqs then entries[key := entries[key].(count := entries[key].count + 1)]
    else entries
  }

  function Reaped(entries: map<string, Entry>, now: int): map<string, Entry> {
    map k | k in entries && now <= entries[k].resetAt :: entries[k]
  }

  class RateLimiter {
    var entries: map<string, Entry>

    constructor ()
      ensures entries == map[]
    {
      entries := map[];
    }

    method Allow(key: string, maxReqs: int, window: int, now: int) returns (ok: bool)
      modifies this
      ensures ok == Admits(old(entries), key, maxReqs, now)
      ensures entries == Charged(old(entries), key, maxReqs, window, now)
    {
      if key !in entries || now > entries[key].resetAt {
        entries := entries[key := Entry(1, now + window)];
        return true;
      }
      var e := entries[key];
      if e.count >= maxReqs { return false; }
      entries := entries[key := e.(count := e.count + 1)];
      return true;
    }

    /** One round of the reap loop. */
    method Reap(now: int)
      modifies this
      ensures entries == Reaped(old(entries), now)
    {
      var rest := entries.Keys;
      while rest != {}
        invariant rest <= entries.Keys
        invariant entries ==
                  map k | k in old(entries) && (k in rest || now <= old(entries)[k].resetAt) :: old(entries)[k]
        decreases rest
      {
        var k :| k in rest;
        rest := rest - {k};
        if now > entries[k].resetAt {
          entries := entries - {k};
        }
      }
    }
  }

  // ----- Runs -----

  datatype Event = Allow(key: string, maxReqs: int, window: int, now: int) | Reap(now: int)

  predicate Monotone(events: seq<Event>) {
    forall i, j :: 0 <= i < j < |events| ==> events[i].now <= events[j].now
  }

  /** The entries after the first `n` events; without `reaping` the reap events do nothing. */
  function After(events: seq<Event>, n: nat, reaping: bool): map<string, Entry>
    requires n <= |events|
  {
    if n == 0 then map[] else
    var before := After(events, n - 1, reaping);
    match events[n - 1]
    case Allow(key, maxReqs, window, now) => Charged(before, key, maxReqs, window, now)
    case Reap(now) => if reaping then Reaped(before, now) else before
  }

  /** The answer of event `i`. */
  predicate AdmittedAt(events: seq<Event>, i: nat, reaping: bool)
    requires i < |events|
  {
    events[i].Allow? && Admits(After(events, i, reaping), events[i].key, events[i].maxReqs, events[i].now)
  }

  // ----- The reaper is invisible -----

  /** The reaped map is the reaper-free one less some entries expired at time `now`. */
  predicate OnlyExpiredMissing(entries: map<string, Entry>, full: map<string, Entry>, now: int) {
    && (forall k :: k in entries ==> k in full && full[k] == entries[k])
    && (forall k :: k in full && k !in entries ==> full[k].resetAt < now)
  }

  lemma {:induction false} ReapingOnlyDropsExpired(events: seq<Event>, n: nat, now: int)
    requires Monotone(events) && n <= |events|
    requires forall i :: 0 <= i < n ==> events[i].now <= now
    ensures OnlyExpiredMissing(After(events, n, true), After(events, n, false), now)
  {
    if n > 0 {
      ReapingOnlyDropsExpired(events, n - 1, events[n - 1].now);
    }
  }

  /** Reap events, wherever they fall, change no answer of `Allow`. */
  lemma ReaperIsInvisible(events: seq<Event>, i: nat)
    requires Monotone(events) && i < |events|
    ensures AdmittedAt(events, i, true) == AdmittedAt(events, i, false)
  {
    ReapingOnlyDropsExpired(events, i, events[i].now);
  }

  // ----- The rate bound -----

  /** Every call for `key` uses the same limit and window. */
  predicate SameLimit(events: seq<Event>, key: string, maxReqs: int, window: int) {
    forall i :: 0 <= i < |events| && events[i].Allow? && events[i].key == key ==>
                  events[i].maxReqs == maxReqs && events[i].window == window
  }

  function Quota(maxReqs: int): nat {
    if maxReqs > 1 then maxReqs else 1
  }

  /** The calls for `key` admitted at times from `a` to `b`, among the first `n` events. */
  function Admitted(events: seq<Event>, key: string, n: nat, a: int, b: int): nat
    requires n <= |events|
  {
    if n == 0 then 0
    else Admitted(events, key, n - 1, a, b)
         + if AdmittedAt(events, n - 1, true) && events[n - 1].key == key && a <= events[n - 1].now <= b then 1 else 0
  }

  // A window with the times of the calls it admitted; the first of them opened it.
  datatype Window = Window(start: int, times: seq<int>)

  function CountIn(times: seq<int>, a: int, b: int): (c: nat)
    ensures c <= |times|
  {
    if times == [] then 0
    else CountIn(times[..|times| - 1], a, b) + if a <= times[|times| - 1] <= b then 1 else 0
  }

  function CountAll(windows: seq<Window>, a: int, b: int): nat {
    if windows == [] then 0
    else CountAll(windows[..|windows| - 1], a, b) + CountIn(windows[|windows| - 1].times, a, b)
  }

  /** A call admitted at time `t` opens a new window or joins the last one. */
  function WithCall(windows: seq<Window>, opens: bool, t: int): seq<Window> {
    if opens || windows == [] then windows + [Window(t, [t])]
    else
      var n := |windows| - 1;
      windows[n := windows[n].(times := windows[n].times + [t])]
  }

  /** The windows of `key` opened by the first `n` events. */
  ghost function Windows(events: seq<Event>, key: string, n: nat): seq<Window>
    requires n <= |events|
  {
    if n == 0 then [] else
    var before := Windows(events, key, n - 1);
    if !AdmittedAt(events, n - 1, true) || events[n - 1].key != key then before
    else WithCall(before, Opens(After(events, n - 1, true), key, events[n - 1].now), events[n - 1].now)
  }

  /** Windows follow each other without overlap, each is opened by its first call, admits calls only
      within its span and no more than the quota. */
  predicate WindowsOk(windows: seq<Window>, window: int, quota: nat) {
    && (forall i :: 0 <= i < |windows| ==>
          && 0 < |windows[i].times| <= quota
          && windows[i].times[0] == windows[i].start
          && forall j :: 0 <= j < |windows[i].times| ==>
                           windows[i].start <= windows[i].times[j] <= windows[i].start + window)
    && (forall i :: 0 <= i < |windows| - 1 ==> windows[i + 1].start > windows[i].start + window)
  }

  /** The entry of `key` describes the last window, unless that window has been reaped. */
  predicate EntryOk(entries: map<string, Entry>, key: string, windows: seq<Window>, window: int, now: int) {
    && (key in entries ==>
          && |windows| > 0
          && var last := windows[|windows| - 1];
             entries[key].count == |last.times| && entries[key].resetAt == last.start + window)
    && (key !in entries && |windows| > 0 ==> windows[|windows| - 1].start + window < now)
    && (|windows| > 0 ==> windows[|windows| - 1].start <= now)
  }

  lemma OpenedWindow(windows: seq<Window>, window: int, quota: nat, now: int)
    requires WindowsOk(windows, window, quota) && window >= 0 && quota >= 1
    requires |windows| > 0 ==> windows[|windows| - 1].start + window < now
    ensures WindowsOk(windows + [Window(now, [now])], window, quota)
  {
  }

  lemma ExtendedWindow(windows: seq<Window>, window: int, quota: nat, now: int)
    requires WindowsOk(windows, window, quota) && |windows| > 0
    requires var last := windows[|windows| - 1];
             |last.times| < quota && last.start <= now <= last.start + window
    ensures var last := windows[|windows| - 1];
            WindowsOk(windows[|windows| - 1 := last.(times := last.times + [now])], window, quota)
  {
  }

  lemma AdmissionKeepsWindows(entries: map<string, Entry>, key: string, windows: seq<Window>, maxReqs: int, window: int,
                              now: int)
    requires WindowsOk(windows, window, Quota(maxReqs)) && EntryOk(entries, key, windows, window, now) && window >= 0
    requires Admits(entries, key, maxReqs, now)
    ensures var windows' := WithCall(windows, Opens(entries, key, now), now);
            WindowsOk(windows', window, Quota(maxReqs))
            && EntryOk(Charged(entries, key, maxReqs, window, now), key, windows', window, now)
  {
    if Opens(entries, key, now) {
      OpenedWindow(windows, window, Quota(maxReqs), now);
    } else {
      ExtendedWindow(windows, window, Quota(maxReqs), now);
    }
  }

  lemma ReapKeepsEntryOk(entries: map<string, Entry>, key: string, windows: seq<Window>, window: int, now: int)
    requires EntryOk(entries, key, windows, window, now)
    ensures EntryOk(Reaped(entries, now), key, windows, window, now)
  {
  }

  lemma OtherCallKeepsEntryOk(entries: map<string, Entry>, key: string, windows: seq<Window>, window: int, e: Event)
    requires EntryOk(entries, key, windows, window, e.now) && e.Allow?
    requires e.key != key || !Admits(entries, key, e.maxReqs, e.now)
    ensures EntryOk(Charged(entries, e.key, e.maxReqs, e.window, e.now), key, windows, window, e.now)
  {
  }

  lemma WindowsStep(events: seq<Event>, key: string, maxReqs: int, window: int, n: nat)
    requires SameLimit(events, key, maxReqs, window) && window >= 0 && n < |events|
    requires WindowsOk(Windows(events, key, n), window, Quota(maxReqs))
    requires EntryOk(After(events, n, true), key, Windows(events, key, n), window, events[n].now)
    ensures WindowsOk(Windows(events, key, n + 1), window, Quota(maxReqs))
    ensures EntryOk(After(events, n + 1, true), key, Windows(events, key, n + 1), window, events[n].now)
  {
    var e, entries, windows := events[n], After(events, n, true), Windows(events, key, n);
    if e.Reap? {
      ReapKeepsEntryOk(entries, key, windows, window, e.now);
    } else if e.key == key && Admits(entries, key, maxReqs, e.now) {
      AdmissionKeepsWindows(entries, key, windows, maxReqs, window, e.now);
    } else {
      OtherCallKeepsEntryOk(entries, key, windows, window, e);
    }
  }

  lemma EntryOkLater(entries: map<string, Entry>, key: string, windows: seq<Window>, window: int, now: int, later: int)
    requires EntryOk(entries, key, windows, window, now) && now <= later
    ensures EntryOk(entries, key, windows, window, later)
  {
  }

  lemma {:induction false} WindowsAreOk(events: seq<Event>, key: string, maxReqs: int, window: int, n: nat, now: int)
    requires Monotone(events) && SameLimit(events, key, maxReqs, window) && window >= 0 && n <= |events|
    requires n > 0 ==> events[n - 1].now <= now
    ensures WindowsOk(Windows(events, key, n), window, Quota(maxReqs))
    ensures EntryOk(After(events, n, true), key, Windows(events, key, n), window, now)
  {
    if n > 0 {
      var t := events[n - 1].now;
      WindowsAreOk(events, key, maxReqs, window, n - 1, t);
      WindowsStep(events, key, maxReqs, window, n - 1);
      EntryOkLater(After(events, n, true), key, Windows(events, key, n), window, t, now);
    }
  }

  lemma CountOpened(windows: seq<Window>, t: int, a: int, b: int)
    ensures CountAll(windows + [Window(t, [t])], a, b) == CountAll(windows, a, b) + if a <= t <= b then 1 else 0
  {
    assert (windows + [Window(t, [t])])[..|windows|] == windows;
    assert [t][..0] == [];
  }

  lemma CountJoined(windows: seq<Window>, t: int, a: int, b: int)
    requires |windows| > 0
    ensures CountAll(WithCall(windows, false, t), a, b) == CountAll(windows, a, b) + if a <= t <= b then 1 else 0
  {
    var n := |windows| - 1;
    var times := windows[n].times;
    assert WithCall(windows, false, t)[..n] == windows[..n];
    assert (times + [t])[..|times|] == times;
  }

  lemma CountWithCall(windows: seq<Window>, opens: bool, t: int, a: int, b: int)
    ensures CountAll(WithCall(windows, opens, t), a, b) == CountAll(windows, a, b) + if a <= t <= b then 1 else 0
  {
    if opens || windows == [] {
      CountOpened(windows, t, a, b);
    } else {
      CountJoined(windows, t, a, b);
    }
  }

  /** The windows hold exactly the admitted calls. */
  ghost predicate CountsMatch(events: seq<Event>, key: string, n: nat, a: int, b: int)
    requires n <= |events|
  {
    CountAll(Windows(events, key, n), a, b) == Admitted(events, key, n, a, b)
  }

  lemma WindowsNext(events: seq<Event>, key: string, n: nat)
    requires n < |events|
    ensures Windows(events, key, n + 1) ==
            if AdmittedAt(events, n, true) && events[n].key == key
            then WithCall(Windows(events, key, n), Opens(After(events, n, true), key, events[n].now), events[n].now)
            else Windows(events, key, n)
  {
  }

  lemma CountStep(events: seq<Event>, key: string, n: nat, a: int, b: int)
    requires n < |events| && CountsMatch(events, key, n, a, b)
    ensures CountsMatch(events, key, n + 1, a, b)
  {
    WindowsNext(events, key, n);
    if AdmittedAt(events, n, true) && events[n].key == key {
      CountWithCall(Windows(events, key, n), Opens(After(events, n, true), key, events[n].now), events[n].now, a, b);
    }
  }

  lemma {:induction false} CountMatches(events: seq<Event>, key: string, n: nat, a: int, b: int)
    requires n <= |events|
    ensures CountsMatch(events, key, n, a, b)
  {
    if n == 0 {
      assert Windows(events, key, 0) == [];
    } else {
      CountMatches(events, key, n - 1, a, b);
      CountStep(events, key, n - 1, a, b);
    }
  }

  lemma {:induction false} CountOutside(times: seq<int>, a: int, b: int)
    requires forall j :: 0 <= j < |times| ==> times[j] < a || times[j] > b
    ensures CountIn(times, a, b) == 0
  {
    if times != [] {
      CountOutside(times[..|times| - 1], a, b);
    }
  }

  /** A first call before the interval is not counted. */
  lemma {:induction false} CountWithoutFirst(times: seq<int>, a: int, b: int)
    requires |times| > 0 && times[0] < a
    ensures CountIn(times, a, b) <= |times| - 1
  {
    if |times| > 1 {
      CountWithoutFirst(times[..|times| - 1], a, b);
    }
  }

  lemma PrefixOk(windows: seq<Window>, window: int, quota: nat, n: nat)
    requires WindowsOk(windows, window, quota) && n <= |windows|
    ensures WindowsOk(windows[..n], window, quota)
  {
  }

  lemma {:induction false} WindowsBefore(windows: seq<Window>, window: int, quota: nat, a: int, b: int)
    requires WindowsOk(windows, window, quota) && (|windows| > 0 ==> windows[|windows| - 1].start + window < a)
    ensures CountAll(windows, a, b) == 0
  {
    var n := |windows|;
    if n > 0 {
      CountOutside(windows[n - 1].times, a, b);
      PrefixOk(windows, window, quota, n - 1);
      if n > 1 {
        assert windows[n - 2].start + window < windows[n - 2 + 1].start;
        assert windows[n - 1].start <= windows[n - 1].times[0] <= windows[n - 1].start + window;
      }
      WindowsBefore(windows[..n - 1], window, quota, a, b);
    }
  }

  /** If the last window opened before the interval, only its calls but the first may count. */
  lemma EarlierWindow(windows: seq<Window>, window: int, quota: nat, a: int)
    requires WindowsOk(windows, window, quota) && |windows| > 0 && windows[|windows| - 1].start < a
    ensures CountAll(windows, a, a + window) <= quota - 1
  {
    var n := |windows| - 1;
    CountWithoutFirst(windows[n].times, a, a + window);
    PrefixOk(windows, window, quota, n);
    if n > 0 {
      assert windows[n - 1].start + window < windows[n - 1 + 1].start;
    }
    WindowsBefore(windows[..n], window, quota, a, a + window);
  }

  /** The last window opens by the end of the interval, so the one before it opened before the interval. */
  lemma CountInLastTwo(windows: seq<Window>, window: int, quota: nat, a: int)
    requires WindowsOk(windows, window, quota) && |windows| > 1 && windows[|windows| - 1].start <= a + window
    ensures CountAll(windows[..|windows| - 1], a, a + window) <= quota - 1
  {
    var n := |windows| - 1;
    assert windows[n - 1].start + window < windows[n - 1 + 1].start;
    PrefixOk(windows, window, quota, n);
    EarlierWindow(windows[..n], window, quota, a);
  }

  /** A window that opens after the interval does not count. */
  lemma LateWindow(windows: seq<Window>, window: int, quota: nat, a: int, b: int)
    requires WindowsOk(windows, window, quota) && |windows| > 0 && windows[|windows| - 1].start > b
    ensures CountAll(windows, a, b) == CountAll(windows[..|windows| - 1], a, b)
  {
    CountOutside(windows[|windows| - 1].times, a, b);
  }

  lemma OneWindow(windows: seq<Window>, window: int, quota: nat, a: int, b: int)
    requires WindowsOk(windows, window, quota) && |windows| == 1
    ensures CountAll(windows, a, b) <= quota
  {
    assert windows[..0] == [];
    assert CountAll([], a, b) == 0;
  }

  /** In an interval as long as a window at most two windows count, and the earlier of two only without
      its first call. */
  lemma {:induction false} CountInInterval(windows: seq<Window>, window: int, quota: nat, a: int)
    requires WindowsOk(windows, window, quota) && quota >= 1
    ensures CountAll(windows, a, a + window) <= 2 * quota - 1
  {
    var n := |windows|;
    if n == 0 {
      assert CountAll(windows, a, a + window) == 0;
    } else if windows[n - 1].start > a + window {
      LateWindow(windows, window, quota, a, a + window);
      PrefixOk(windows, window, quota, n - 1);
      CountInInterval(windows[..n - 1], window, quota, a);
    } else if n == 1 {
      OneWindow(windows, window, quota, a, a + window);
    } else {
      CountInLastTwo(windows, window, quota, a);
    }
  }

  lemma {:induction false} NothingInEmptyInterval(events: seq<Event>, key: string, n: nat, a: int, b: int)
    requires n <= |events| && b < a
    ensures Admitted(events, key, n, a, b) == 0
  {
    if n > 0 {
      NothingInEmptyInterval(events, key, n - 1, a, b);
    }
  }

  /** Any interval as long as the window admits at most 2q - 1 calls for a key, where q is the limit,
      but at least 1: one less than twice the limit, over every sequence of calls and reaps. */
  lemma RateBound(events: seq<Event>, key: string, maxReqs: int, window: int, a: int)
    requires Monotone(events) && SameLimit(events, key, maxReqs, window)
    ensures Admitted(events, key, |events|, a, a + window) <= 2 * Quota(maxReqs) - 1
  {
    if window < 0 {
      NothingInEmptyInterval(events, key, |events|, a, a + window);
    } else {
      var now := if events == [] then 0 else events[|events| - 1].now;
      WindowsAreOk(events, key, maxReqs, window, |events|, now);
      CountMatches(events, key, |events|, a, a + window);
      CountInInterval(Windows(events, key, |events|), window, Quota(maxReqs), a);
    }
  }

  // ----- The bound is reached -----

  /** One call at time 0, then calls until the first window is used up at its very end, then a full second
      window right after it. */
  function Burst(key: string, maxReqs: int, window: int): seq<Event> {
    var q := Quota(maxReqs);
    seq(2 * q, i => Allow(key, maxReqs, window, if i == 0 then 0 else if i < q then window else window + 1))
  }

  /** The two windows fill up one call at a time. */
  lemma {:induction false} BurstFillsWindows(key: string, maxReqs: int, window: int, n: nat)
    requires window >= 1 && 0 < n <= 2 * Quota(maxReqs)
    ensures var q := Quota(maxReqs);
            After(Burst(key, maxReqs, window), n, true) ==
            map[key := if n <= q then Entry(n, window) else Entry(n - q, 2 * window + 1)]
  {
    if n > 1 {
      BurstFillsWindows(key, maxReqs, window, n - 1);
    }
  }

  lemma BurstIsAdmitted(key: string, maxReqs: int, window: int, n: nat)
    requires window >= 1 && n < 2 * Quota(maxReqs)
    ensures AdmittedAt(Burst(key, maxReqs, window), n, true)
  {
    if n > 0 {
      BurstFillsWindows(key, maxReqs, window, n);
    }
  }

  /** All calls but the first fall into the interval that starts just after it. */
  lemma {:induction false} BurstCount(key: string, maxReqs: int, window: int, n: nat)
    requires window >= 1 && 0 < n <= 2 * Quota(maxReqs)
    ensures Admitted(Burst(key, maxReqs, window), key, n, 1, 1 + window) == n - 1
  {
    BurstIsAdmitted(key, maxReqs, window, n - 1);
    if n > 1 {
      BurstCount(key, maxReqs, window, n - 1);
    }
  }

  /** For every limit and every window the bound is reached. */
  lemma RateBoundIsTight(key: string, maxReqs: int, window: int) returns (events: seq<Event>, a: int)
    requires window >= 1
    ensures Monotone(events) && SameLimit(events, key, maxReqs, window)
    ensures Admitted(events, key, |events|, a, a + window) == 2 * Quota(maxReqs) - 1
  {
    events, a := Burst(key, maxReqs, window), 1;
    BurstCount(key, maxReqs, window, |events|);
  }
}
