// The requests-per-minute ceiling: one fixed window per key, swept when there are many.
module RateLimiter {
  import opened Wrappers

  const WINDOW_SECS := 60
  const TRACKED_KEYS := 1024

  datatype Window = Window(started: int, used: nat)

  datatype Request = Request(key: string, now: int)

  type Windows = map<string, Window>

  // ---- One request ------------------------------------------------------------

  // The window a request falls in: a new key and an idle minute start a fresh one.
  function Current(windows: Windows, key: string, now: int): Window {
    if key in windows && now - windows[key].started < WINDOW_SECS then windows[key] else Window(now, 0)
  }

  function Wait(w: Window, now: int): int {
    if w.started + WINDOW_SECS - now > 1 then w.started + WINDOW_SECS - now else 1
  }

  function Ask(windows: Windows, key: string, limit: nat, now: int): (Option<int>, Windows) {
    var w := Current(windows, key, now);
    if w.used >= limit then (Some(Wait(w, now)), windows[key := w])
    else (None, windows[key := Window(w.started, w.used + 1)])
  }

  function Swept(windows: Windows, now: int): Windows {
    map k | k in windows && now - windows[k].started < WINDOW_SECS :: windows[k]
  }

  function Tidied(windows: Windows, now: int): Windows {
    if |windows| > TRACKED_KEYS then Swept(windows, now) else windows
  }

  // The verdict and the windows after one request. A key with no limit is not tracked.
  function Respond(sweeping: bool, limits: string -> Option<nat>, windows: Windows, r: Request)
    : (Option<int>, Windows)
  {
    match limits(r.key)
    case None => (None, windows)
    case Some(limit) => Ask(if sweeping then Tidied(windows, r.now) else windows, r.key, limit, r.now)
  }

  // The windows of the other keys stay as they are; past 1024 windows, if the key has a
  // limit, those a minute old or older go.
  predicate OthersStay(before: Windows, after: Windows, key: string, now: int, limited: bool) {
    && (forall k :: k in before && k != key ==>
          (k in after <==> !limited || |before| <= 1024 || now - before[k].started < 60))
    && (forall k :: k in after && k != key ==> k in before && after[k] == before[k])
  }

  lemma RespondLeaves(limits: string -> Option<nat>, windows: Windows, r: Request)
    ensures OthersStay(windows, Respond(true, limits, windows, r).1, r.key, r.now, limits(r.key).Some?)
  {
  }

  class Limiter {
    var windows: Windows

    constructor ()
      ensures windows == map[]
    {
      windows := map[];
    }

    // Some: refused, come back in so many seconds.
    method RetryAfter(limits: string -> Option<nat>, key: string, now: int) returns (retry: Option<int>)
      modifies this
      ensures retry == Respond(true, limits, old(windows), Request(key, now)).0
      ensures windows == Respond(true, limits, old(windows), Request(key, now)).1
    {
      var limit := limits(key);
      if limit.None? {
        return None;
      }
      if |windows| > TRACKED_KEYS {
        windows := Swept(windows, now);
      }
      var w := if key in windows then windows[key] else Window(now, 0);
      if now - w.started >= WINDOW_SECS {
        w := Window(now, 0);
      }
      assert w == Current(windows, key, now);
      windows := windows[key := w];
      if w.used >= limit.value {
        return Some(if w.started + WINDOW_SECS - now > 1 then w.started + WINDOW_SECS - now else 1);
      }
      windows := windows[key := Window(w.started, w.used + 1)];
      return None;
    }
  }

  // ---- Runs -------------------------------------------------------------------

  function After(sweeping: bool, limits: string -> Option<nat>, requests: seq<Request>): Windows
    decreases |requests|
  {
    if requests == [] then map[]
    else
      var n := |requests| - 1;
      Respond(sweeping, limits, After(sweeping, limits, requests[..n]), requests[n]).1
  }

  function VerdictAt(sweeping: bool, limits: string -> Option<nat>, requests: seq<Request>, i: nat): Option<int>
    requires i < |requests|
  {
    Respond(sweeping, limits, After(sweeping, limits, requests[..i]), requests[i]).0
  }

  // The clock never goes back, and a configured limit is at least one.
  ghost predicate Clocked(requests: seq<Request>) {
    forall i, j :: 0 <= i < j < |requests| ==> requests[i].now <= requests[j].now
  }

  ghost predicate Limiting(limits: string -> Option<nat>) {
    forall k :: limits(k).Some? ==> limits(k).value >= 1
  }

  // ---- Sweeping changes no verdict --------------------------------------------

  // What the swept map lacks, the full one holds only stale.
  ghost predicate Stale(swept: Windows, full: Windows, now: int) {
    && (forall k :: k in swept ==> k in full && swept[k] == full[k])
    && (forall k :: k in full && k !in swept ==> now - full[k].started >= WINDOW_SECS)
  }

  lemma StaleUntilAsked(swept: Windows, full: Windows, past: int, now: int)
    requires Stale(swept, full, past) && past <= now
    ensures Stale(Tidied(swept, now), full, now)
  {
  }

  lemma AskAlike(swept: Windows, full: Windows, key: string, limit: nat, now: int)
    requires Stale(swept, full, now)
    ensures Ask(swept, key, limit, now).0 == Ask(full, key, limit, now).0
    ensures Stale(Ask(swept, key, limit, now).1, Ask(full, key, limit, now).1, now)
  {
    assert Current(swept, key, now) == Current(full, key, now);
  }

  lemma RespondAlike(limits: string -> Option<nat>, swept: Windows, full: Windows, past: int, r: Request)
    requires Stale(swept, full, past) && past <= r.now
    ensures Respond(true, limits, swept, r).0 == Respond(false, limits, full, r).0
    ensures Stale(Respond(true, limits, swept, r).1, Respond(false, limits, full, r).1, r.now)
  {
    match limits(r.key)
    case None =>
    case Some(limit) =>
      StaleUntilAsked(swept, full, past, r.now);
      AskAlike(Tidied(swept, r.now), full, r.key, limit, r.now);
  }

  lemma {:induction false} RunsAlike(limits: string -> Option<nat>, requests: seq<Request>, now: int)
    requires Clocked(requests) && (requests != [] ==> requests[|requests| - 1].now <= now)
    ensures Stale(After(true, limits, requests), After(false, limits, requests), now)
    decreases |requests|
  {
    if requests != [] {
      var n := |requests| - 1;
      RunsAlike(limits, requests[..n], requests[n].now);
      RespondAlike(limits, After(true, limits, requests[..n]), After(false, limits, requests[..n]),
                   requests[n].now, requests[n]);
    }
  }

  // The limiter that sweeps answers every request as one that never does.
  lemma SweepingIsInvisible(limits: string -> Option<nat>, requests: seq<Request>, i: nat)
    requires Clocked(requests) && i < |requests|
    ensures VerdictAt(true, limits, requests, i) == VerdictAt(false, limits, requests, i)
  {
    RunsAlike(limits, requests[..i], requests[i].now);
    RespondAlike(limits, After(true, limits, requests[..i]), After(false, limits, requests[..i]),
                 requests[i].now, requests[i]);
  }

  // ---- How many requests get through ------------------------------------------

  // When the key's admitted requests arrived.
  function Served(sweeping: bool, limits: string -> Option<nat>, requests: seq<Request>, key: string): seq<int>
    decreases |requests|
  {
    if requests == [] then []
    else
      var n := |requests| - 1;
      Served(sweeping, limits, requests[..n], key)
      + if requests[n].key == key && VerdictAt(sweeping, limits, requests, n).None? then [requests[n].now] else []
  }

  function Count(times: seq<int>, from: int, until: int): nat {
    if times == [] then 0
    else
      Count(times[..|times| - 1], from, until) + if from <= times[|times| - 1] < until then 1 else 0
  }

  lemma {:induction false} ServedAlike(limits: string -> Option<nat>, requests: seq<Request>, key: string)
    requires Clocked(requests)
    ensures Served(true, limits, requests, key) == Served(false, limits, requests, key)
    decreases |requests|
  {
    if requests != [] {
      ServedAlike(limits, requests[..|requests| - 1], key);
      SweepingIsInvisible(limits, requests, |requests| - 1);
    }
  }

  lemma {:induction false} CountSplits(times: seq<int>, from: int, middle: int, until: int)
    requires from <= middle <= until
    ensures Count(times, from, until) == Count(times, from, middle) + Count(times, middle, until)
  {
    if times != [] {
      CountSplits(times[..|times| - 1], from, middle, until);
    }
  }

  lemma {:induction false} CountNone(times: seq<int>, from: int, until: int)
    requires forall i :: 0 <= i < |times| ==> times[i] < from
    ensures Count(times, from, until) == 0
  {
    if times != [] {
      CountNone(times[..|times| - 1], from, until);
    }
  }

  // A key's window counts exactly what it let through, its opening request first, and
  // whatever minute is looked at reaches back into one earlier window at most, past the
  // request that opened that one.
  ghost predicate Fair(times: seq<int>, w: Window, limit: nat, minute: int) {
    && (forall i :: 0 <= i < |times| ==> times[i] < w.started + WINDOW_SECS)
    && Count(times, w.started, w.started + WINDOW_SECS) == w.used <= limit
    && Count(times, w.started, w.started + 1) >= 1
    && (w.started - WINDOW_SECS < minute <= w.started ==> Count(times, minute, w.started) <= limit - 1)
    && Count(times, minute, minute + WINDOW_SECS) <= 2 * limit - 1
  }

  lemma Extended(times: seq<int>, now: int, from: int, until: int)
    ensures Count(times + [now], from, until) == Count(times, from, until) + if from <= now < until then 1 else 0
  {
    assert (times + [now])[..|times|] == times;
  }

  lemma SameWindow(times: seq<int>, w: Window, limit: nat, minute: int, now: int)
    requires Fair(times, w, limit, minute) && w.started <= now < w.started + WINDOW_SECS && w.used < limit
    ensures Fair(times + [now], Window(w.started, w.used + 1), limit, minute)
  {
    var end := w.started + WINDOW_SECS;
    Extended(times, now, w.started, end);
    Extended(times, now, w.started, w.started + 1);
    Extended(times, now, minute, w.started);
    Extended(times, now, minute, minute + WINDOW_SECS);
    if minute <= now < minute + WINDOW_SECS {
      if minute <= w.started {
        CountSplits(times, minute, w.started, minute + WINDOW_SECS);
        CountSplits(times, w.started, minute + WINDOW_SECS, end);
      } else {
        CountSplits(times, w.started, minute, end);
        CountSplits(times, minute, end, minute + WINDOW_SECS);
        CountNone(times, end, minute + WINDOW_SECS);
      }
    }
  }

  lemma NextWindow(times: seq<int>, w: Window, limit: nat, minute: int, now: int)
    requires Fair(times, w, limit, minute) && w.started + WINDOW_SECS <= now && limit >= 1
    ensures Fair(times + [now], Window(now, 1), limit, minute)
  {
    var end := w.started + WINDOW_SECS;
    Extended(times, now, now, now + WINDOW_SECS);
    Extended(times, now, now, now + 1);
    CountNone(times, now, now + WINDOW_SECS);
    Extended(times, now, minute, now);
    Extended(times, now, minute, minute + WINDOW_SECS);
    if now - WINDOW_SECS < minute <= now {
      CountSince(times, w, minute, now);
      CountSplits(times, minute, now, minute + WINDOW_SECS);
      CountNone(times, now, minute + WINDOW_SECS);
    }
  }

  // From past its opening request on, a window let through one less.
  lemma CountSince(times: seq<int>, w: Window, minute: int, until: int)
    requires forall i :: 0 <= i < |times| ==> times[i] < w.started + WINDOW_SECS
    requires Count(times, w.started, w.started + 1) >= 1
    requires w.started < minute && minute <= until && w.started + WINDOW_SECS <= until
    ensures Count(times, minute, until) <= Count(times, w.started, w.started + WINDOW_SECS) - 1
  {
    CountSplits(times, w.started, w.started + 1, until);
    CountSplits(times, w.started + 1, minute, until);
    CountSplits(times, w.started, w.started + WINDOW_SECS, until);
    CountNone(times, w.started + WINDOW_SECS, until);
  }

  lemma FirstWindow(now: int, limit: nat, minute: int)
    requires limit >= 1
    ensures Fair([now], Window(now, 1), limit, minute)
  {
    assert [] + [now] == [now];
    Extended([], now, now, now + WINDOW_SECS);
    Extended([], now, now, now + 1);
    Extended([], now, minute, now);
    Extended([], now, minute, minute + WINDOW_SECS);
  }

  // A key never seen has let nothing through; a window is never ahead of the clock.
  ghost predicate Kept(windows: Windows, times: seq<int>, key: string, limit: nat, minute: int, now: int) {
    if key in windows then windows[key].started <= now && Fair(times, windows[key], limit, minute)
    else times == []
  }

  lemma AskKeeps(windows: Windows, times: seq<int>, key: string, limit: nat, minute: int, now: int)
    requires Kept(windows, times, key, limit, minute, now) && limit >= 1
    ensures var (retry, after) := Ask(windows, key, limit, now);
            Kept(after, if retry.None? then times + [now] else times, key, limit, minute, now)
  {
    if key in windows && now - windows[key].started < WINDOW_SECS {
      if windows[key].used < limit {
        SameWindow(times, windows[key], limit, minute, now);
      }
    } else if key in windows {
      NextWindow(times, windows[key], limit, minute, now);
    } else {
      assert [] + [now] == [now];
      FirstWindow(now, limit, minute);
    }
  }

  lemma RespondKeeps(limits: string -> Option<nat>, windows: Windows, times: seq<int>, r: Request, key: string,
                     limit: nat, minute: int)
    requires Kept(windows, times, key, limit, minute, r.now)
    requires limits(key) == Some(limit) && limit >= 1
    ensures var (retry, after) := Respond(false, limits, windows, r);
            Kept(after, if r.key == key && retry.None? then times + [r.now] else times, key, limit, minute, r.now)
  {
    if r.key == key {
      AskKeeps(windows, times, key, limit, minute, r.now);
    } else {
      OthersUntouched(limits, windows, r, key);
    }
  }

  lemma KeptLater(windows: Windows, times: seq<int>, key: string, limit: nat, minute: int, now: int, later: int)
    requires Kept(windows, times, key, limit, minute, now) && now <= later
    ensures Kept(windows, times, key, limit, minute, later)
  {
  }

  lemma {:induction false} RunKeeps(limits: string -> Option<nat>, requests: seq<Request>, key: string, limit: nat,
                                    minute: int, now: int)
    requires Clocked(requests) && (requests != [] ==> requests[|requests| - 1].now <= now)
    requires limits(key) == Some(limit) && limit >= 1
    ensures Kept(After(false, limits, requests), Served(false, limits, requests, key), key, limit, minute, now)
    decreases |requests|
  {
    if requests != [] {
      var (init, last) := (requests[..|requests| - 1], requests[|requests| - 1]);
      RunKeeps(limits, init, key, limit, minute, last.now);
      var (windows, times) := (After(false, limits, init), Served(false, limits, init, key));
      RespondKeeps(limits, windows, times, last, key, limit, minute);
      var (retry, after) := Respond(false, limits, windows, last);
      AppendNothing(times);
      KeptLater(after, Served(false, limits, requests, key), key, limit, minute, last.now, now);
    }
  }

  lemma AppendNothing(times: seq<int>)
    ensures times + [] == times
  {
  }

  lemma OthersUntouched(limits: string -> Option<nat>, windows: Windows, r: Request, key: string)
    requires r.key != key
    ensures var after := Respond(false, limits, windows, r).1;
            (key in after <==> key in windows) && (key in windows ==> after[key] == windows[key])
  {
  }

  ghost predicate WithinLimits(windows: Windows, times: seq<int>, key: string, limit: nat, minute: int) {
    && Count(times, minute, minute + WINDOW_SECS) <= 2 * limit - 1
    && (key in windows ==>
          Count(times, windows[key].started, windows[key].started + WINDOW_SECS) == windows[key].used <= limit)
  }

  lemma KeptWithinLimits(swept: Windows, full: Windows, times: seq<int>, key: string, limit: nat, minute: int, now: int)
    requires Kept(full, times, key, limit, minute, now) && Stale(swept, full, now) && limit >= 1
    ensures WithinLimits(swept, times, key, limit, minute)
  {
  }

  // At most `limit` requests of a key get through in one of its windows, counted
  // exactly, and in any minute at all fewer than twice that.
  lemma AdmittedBelowTwice(limits: string -> Option<nat>, requests: seq<Request>, key: string, limit: nat, minute: int)
    requires Clocked(requests) && limits(key) == Some(limit) && limit >= 1
    ensures WithinLimits(After(true, limits, requests), Served(true, limits, requests, key), key, limit, minute)
  {
    var now := if requests == [] then 0 else requests[|requests| - 1].now;
    RunKeeps(limits, requests, key, limit, minute, now);
    RunsAlike(limits, requests, now);
    ServedAlike(limits, requests, key);
    KeptWithinLimits(After(true, limits, requests), After(false, limits, requests),
                     Served(false, limits, requests, key), key, limit, minute, now);
  }

  predicate Holds(windows: Windows, key: string, w: Window) {
    key in windows && windows[key] == w
  }

  function Burst(r: Request, n: nat): seq<Request> {
    seq(n, _ => r)
  }

  lemma ServedOne(limits: string -> Option<nat>, before: seq<Request>, r: Request, limit: nat, from: int, until: int)
    requires limits(r.key) == Some(limit) && from <= r.now < until
    requires Current(After(false, limits, before), r.key, r.now).used < limit
    ensures var w := Current(After(false, limits, before), r.key, r.now);
            Holds(After(false, limits, before + [r]), r.key, Window(w.started, w.used + 1))
    ensures Count(Served(false, limits, before + [r], r.key), from, until)
      == Count(Served(false, limits, before, r.key), from, until) + 1
  {
    AfterMore(limits, before, r);
    ServedMore(limits, before, r);
    Extended(Served(false, limits, before, r.key), r.now, from, until);
  }

  lemma AfterMore(limits: string -> Option<nat>, before: seq<Request>, r: Request)
    ensures After(false, limits, before + [r]) == Respond(false, limits, After(false, limits, before), r).1
  {
    assert (before + [r])[..|before|] == before;
  }

  lemma ServedMore(limits: string -> Option<nat>, before: seq<Request>, r: Request)
    requires Respond(false, limits, After(false, limits, before), r).0.None?
    ensures Served(false, limits, before + [r], r.key) == Served(false, limits, before, r.key) + [r.now]
  {
    assert (before + [r])[..|before|] == before;
  }

  lemma CurrentIs(windows: Windows, key: string, now: int, w: Window)
    requires Holds(windows, key, w) && now < w.started + WINDOW_SECS
    ensures Current(windows, key, now) == w
  {
  }

  // A burst that fits the window it falls in is let through whole.
  lemma {:induction false} BurstServed(limits: string -> Option<nat>, before: seq<Request>, r: Request, n: nat,
                                       limit: nat, w: Window, from: int, until: int)
    requires limits(r.key) == Some(limit) && from <= r.now < until && r.now < w.started + WINDOW_SECS
    requires Current(After(false, limits, before), r.key, r.now) == w && w.used + n <= limit
    ensures n > 0 ==> Holds(After(false, limits, before + Burst(r, n)), r.key, Window(w.started, w.used + n))
    ensures Count(Served(false, limits, before + Burst(r, n), r.key), from, until)
      == Count(Served(false, limits, before, r.key), from, until) + n
  {
    if n == 0 {
      assert before + Burst(r, 0) == before;
    } else {
      BurstServed(limits, before, r, n - 1, limit, w, from, until);
      if n == 1 {
        assert before + Burst(r, 0) == before;
      } else {
        CurrentIs(After(false, limits, before + Burst(r, n - 1)), r.key, r.now, Window(w.started, w.used + n - 1));
      }
      assert before + Burst(r, n) == before + Burst(r, n - 1) + [r];
      ServedOne(limits, before + Burst(r, n - 1), r, limit, from, until);
    }
  }

  // One request, the rest of its window's allowance in that window's last second, the
  // next window's whole allowance one second later: the bound is met.
  lemma BoundIsMet(limits: string -> Option<nat>, key: string, limit: nat)
    requires limits(key) == Some(limit) && limit >= 1
    ensures var requests := Burst(Request(key, 0), 1) + Burst(Request(key, 59), limit - 1)
                            + Burst(Request(key, 60), limit);
            Clocked(requests) && Count(Served(true, limits, requests, key), 1, 61) == 2 * limit - 1
  {
    var opening := Burst(Request(key, 0), 1);
    var window := opening + Burst(Request(key, 59), limit - 1);
    var requests := window + Burst(Request(key, 60), limit);
    assert Clocked(requests);
    Opening(limits, key, limit);
    BurstServed(limits, opening, Request(key, 59), limit - 1, limit, Window(0, 1), 1, 61);
    if limit == 1 {
      assert window == opening;
    }
    BurstServed(limits, window, Request(key, 60), limit, limit, Window(60, 0), 1, 61);
    ServedAlike(limits, requests, key);
  }

  lemma Opening(limits: string -> Option<nat>, key: string, limit: nat)
    requires limits(key) == Some(limit) && limit >= 1
    ensures var opening := Burst(Request(key, 0), 1);
            && Holds(After(false, limits, opening), key, Window(0, 1))
            && Count(Served(false, limits, opening, key), 1, 61) == 0
  {
    var opening := Burst(Request(key, 0), 1);
    assert opening[..0] == [];
    assert Served(false, limits, opening, key) == [] + [0];
    Extended([], 0, 1, 61);
  }

  // ---- When a refused key may come back ---------------------------------------

  lemma FullStaysFull(limits: string -> Option<nat>, windows: Windows, r: Request, key: string, limit: nat, w: Window)
    requires limits(key) == Some(limit) && w.used >= limit && Holds(windows, key, w)
    requires r.key == key ==> r.now < w.started + WINDOW_SECS
    ensures Holds(Respond(false, limits, windows, r).1, key, w)
  {
    if r.key != key {
      OthersUntouched(limits, windows, r, key);
    }
  }

  lemma {:induction false} StaysFull(limits: string -> Option<nat>, requests: seq<Request>, i: nat, j: nat,
                                     key: string, limit: nat, w: Window)
    requires i <= j <= |requests| && limits(key) == Some(limit) && w.used >= limit
    requires Holds(After(false, limits, requests[..i]), key, w)
    requires forall m :: i <= m < j && requests[m].key == key ==> requests[m].now < w.started + WINDOW_SECS
    ensures Holds(After(false, limits, requests[..j]), key, w)
    decreases j
  {
    if j > i {
      StaysFull(limits, requests, i, j - 1, key, limit, w);
      assert requests[..j][..j - 1] == requests[..j - 1];
      FullStaysFull(limits, After(false, limits, requests[..j - 1]), requests[j - 1], key, limit, w);
    }
  }

  lemma RefusedIsFull(limits: string -> Option<nat>, requests: seq<Request>, i: nat) returns (w: Window)
    requires Clocked(requests) && i < |requests| && Limiting(limits)
    requires VerdictAt(false, limits, requests, i).Some?
    ensures limits(requests[i].key).Some? && w.used >= limits(requests[i].key).value
    ensures Holds(After(false, limits, requests[..i + 1]), requests[i].key, w)
    ensures requests[i].now + VerdictAt(false, limits, requests, i).value == w.started + WINDOW_SECS
    ensures 1 <= VerdictAt(false, limits, requests, i).value <= WINDOW_SECS
  {
    var r := requests[i];
    var windows := After(false, limits, requests[..i]);
    w := Current(windows, r.key, r.now);
    RunKeeps(limits, requests[..i], r.key, limits(r.key).value, 0, r.now);
    assert requests[..i + 1][..i] == requests[..i];
  }

  // A refusal names a wait of 1 to 60 seconds, and the key is admitted again exactly
  // once that long has passed, whatever it and the other keys ask meanwhile.
  lemma RetryIsExact(limits: string -> Option<nat>, requests: seq<Request>, i: nat, j: nat)
    requires Clocked(requests) && Limiting(limits)
    requires i < j < |requests| && requests[i].key == requests[j].key
    requires VerdictAt(true, limits, requests, i).Some?
    requires forall m :: i < m < j && requests[m].key == requests[i].key ==>
               requests[m].now < requests[i].now + VerdictAt(true, limits, requests, i).value
    ensures 1 <= VerdictAt(true, limits, requests, i).value <= WINDOW_SECS
    ensures VerdictAt(true, limits, requests, j).None?
      <==> requests[j].now >= requests[i].now + VerdictAt(true, limits, requests, i).value
  {
    SweepingIsInvisible(limits, requests, i);
    SweepingIsInvisible(limits, requests, j);
    var w := RefusedIsFull(limits, requests, i);
    var key := requests[i].key;
    StaysFull(limits, requests, i + 1, j, key, limits(key).value, w);
    AdmittedWhenOver(limits, After(false, limits, requests[..j]), requests[j], limits(key).value, w);
  }

  lemma AdmittedWhenOver(limits: string -> Option<nat>, windows: Windows, r: Request, limit: nat, w: Window)
    requires limits(r.key) == Some(limit) && 1 <= limit <= w.used && Holds(windows, r.key, w)
    ensures Respond(false, limits, windows, r).0.None? <==> r.now >= w.started + WINDOW_SECS
  {
  }
}
