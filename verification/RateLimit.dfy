/** The sliding-window throttle on login attempts. Instants are microseconds, the window is in
    seconds, and the clock is an argument. */
module RateLimit {
  import opened Lists

  const TICKS := 1000000

  type Attempts = map<string, seq<int>>

  /** The configuration: at most `most` attempts per `window` seconds; 0 switches the limiter off. */
  datatype Limits = Limits(most: int, window: int)

  predicate IsRecent(lim: Limits, t: int, now: int) {
    now - t < lim.window * TICKS
  }

  function Recent(lim: Limits, ts: seq<int>, now: int): seq<int> {
    if ts == [] then []
    else
      var front := Recent(lim, ts[..|ts| - 1], now);
      if IsRecent(lim, ts[|ts| - 1], now) then front + [ts[|ts| - 1]] else front
  }

  function Oldest(ts: seq<int>): (t: int)
    requires ts != []
    ensures t in ts && forall x | x in ts :: t <= x
  {
    if |ts| == 1 then ts[0]
    else
      var rest := Oldest(ts[..|ts| - 1]);
      assert ts == ts[..|ts| - 1] + [ts[|ts| - 1]];
      if ts[|ts| - 1] < rest then ts[|ts| - 1] else rest
  }

  function Stored(m: Attempts, ip: string): seq<int> {
    if ip in m then m[ip] else []
  }

  /** An empty list is not kept. */
  function Store(m: Attempts, ip: string, ts: seq<int>): Attempts {
    if ts == [] then m - {ip} else m[ip := ts]
  }

  function Pruned(lim: Limits, m: Attempts, ip: string, now: int): Attempts {
    Store(m, ip, Recent(lim, Stored(m, ip), now))
  }

  /** Whole seconds until the oldest attempt has left the window. */
  function RetryAfter(lim: Limits, oldest: int, now: int): int {
    var left := (lim.window * TICKS - (now - oldest)) / TICKS + 1;
    if left < 1 then 1 else left
  }

  function CheckAnswer(lim: Limits, ts: seq<int>, now: int): Option<int> {
    var recent := Recent(lim, ts, now);
    if lim.most <= 0 || |recent| < lim.most then None else Some(RetryAfter(lim, Oldest(recent), now))
  }

  class LoginRateLimiter {
    const lim: Limits
    var attempts: Attempts

    constructor (most: int, window: int)
      ensures lim == Limits(most, window) && attempts == map[]
    {
      lim := Limits(most, window);
      attempts := map[];
    }

    method Prune(ip: string, now: int) returns (recent: seq<int>)
      modifies this
      ensures attempts == Pruned(lim, old(attempts), ip, now)
      ensures recent == Recent(lim, Stored(old(attempts), ip), now)
    {
      var ts := if ip in attempts then attempts[ip] else [];
      recent := [];
      for i := 0 to |ts|
        invariant attempts == old(attempts)
        invariant recent == Recent(lim, ts[..i], now)
      {
        assert ts[..i + 1][..i] == ts[..i];
        if now - ts[i] < lim.window * TICKS {
          recent := recent + [ts[i]];
        }
      }
      assert ts[..|ts|] == ts;
      if recent != [] {
        attempts := attempts[ip := recent];
      } else {
        attempts := attempts - {ip};
      }
    }

    /** May this IP try now? Otherwise, after how many seconds? */
    method Check(ip: string, now: int) returns (retryAfter: Option<int>)
      modifies this
      ensures retryAfter == CheckAnswer(lim, Stored(old(attempts), ip), now)
      ensures attempts == if lim.most <= 0 then old(attempts) else Pruned(lim, old(attempts), ip, now)
    {
      if lim.most <= 0 {
        return None;
      }
      var recent := Prune(ip, now);
      if |recent| < lim.most {
        return None;
      }
      var oldest := Oldest(recent);
      return Some(RetryAfter(lim, oldest, now));
    }

    method Record(ip: string, now: int)
      modifies this
      ensures attempts == if lim.most <= 0 then old(attempts)
        else old(attempts)[ip := Recent(lim, Stored(old(attempts), ip), now) + [now]]
    {
      if lim.most <= 0 {
        return;
      }
      var recent := Prune(ip, now);
      attempts := attempts[ip := (if ip in attempts then attempts[ip] else []) + [now]];
    }

    method Reset(ip: string)
      modifies this
      ensures attempts == old(attempts) - {ip}
    {
      attempts := attempts - {ip};
    }

    /** The throttle of the login route: record the attempt only if it is admitted. The clock is read for
        the check and again, not earlier, for the record. */
    method Login(ip: string, now: int, later: int) returns (retryAfter: Option<int>)
      requires now <= later
      modifies this
      ensures retryAfter == CheckAnswer(lim, Stored(old(attempts), ip), now)
      ensures attempts == AfterLogin(lim, old(attempts), ip, now, later)
    {
      retryAfter := Check(ip, now);
      if retryAfter.None? {
        RecentLater(lim, Stored(old(attempts), ip), now, later);
        Record(ip, later);
      }
    }
  }

  /** Checked at `now`, recorded at `later`. */
  function AfterLogin(lim: Limits, m: Attempts, ip: string, now: int, later: int): Attempts {
    var recent := Recent(lim, Stored(m, ip), now);
    if lim.most <= 0 then m
    else if |recent| < lim.most then m[ip := Recent(lim, Stored(m, ip), later) + [later]]
    else Store(m, ip, recent)
  }

  lemma {:induction false} RecentTwice(lim: Limits, ts: seq<int>, now: int)
    ensures Recent(lim, Recent(lim, ts, now), now) == Recent(lim, ts, now)
  {
    RecentLater(lim, ts, now, now);
  }

  /** Pruning early and pruning late is pruning late. */
  lemma {:induction false} RecentLater(lim: Limits, ts: seq<int>, early: int, late: int)
    requires early <= late
    ensures Recent(lim, Recent(lim, ts, early), late) == Recent(lim, ts, late)
  {
    if ts != [] {
      var front := ts[..|ts| - 1];
      RecentLater(lim, front, early, late);
      if IsRecent(lim, ts[|ts| - 1], early) {
        var kept := Recent(lim, ts, early);
        assert kept[..|kept| - 1] == Recent(lim, front, early);
      }
    }
  }

  // ----- Runs -----

  datatype Event = Login(ip: string, now: int, later: int) | Reset(ip: string)

  function Step(lim: Limits, m: Attempts, ev: Event): Attempts {
    match ev
    case Login(ip, now, later) => AfterLogin(lim, m, ip, now, later)
    case Reset(ip) => m - {ip}
  }

  function RunFrom(lim: Limits, evs: seq<Event>): Attempts {
    if evs == [] then map[] else Step(lim, RunFrom(lim, evs[..|evs| - 1]), evs[|evs| - 1])
  }

  predicate Admitted(lim: Limits, evs: seq<Event>, ip: string, now: int) {
    CheckAnswer(lim, Stored(RunFrom(lim, evs), ip), now) == None
  }

  /** Every admitted attempt of `ip` since its last reset; nothing is ever pruned from it. */
  function History(lim: Limits, evs: seq<Event>, ip: string): seq<int> {
    if evs == [] then []
    else
      var before, ev := evs[..|evs| - 1], evs[|evs| - 1];
      if ev.ip != ip then History(lim, before, ip)
      else if ev.Reset? then []
      else if Admitted(lim, before, ip, ev.now) then History(lim, before, ip) + [ev.later]
      else History(lim, before, ip)
  }

  predicate ClockBy(evs: seq<Event>, now: int) {
    evs == [] ||
    var before, ev := evs[..|evs| - 1], evs[|evs| - 1];
    if ev.Login? then ev.now <= ev.later <= now && ClockBy(before, ev.now) else ClockBy(before, now)
  }

  ghost predicate Sorted(ts: seq<int>) {
    forall i, j | 0 <= i < j < |ts| :: ts[i] <= ts[j]
  }

  /** Any `most + 1` consecutive instants span at least the window. */
  ghost predicate Spaced(lim: Limits, h: seq<int>) {
    forall i, j | 0 <= i <= j < |h| && j == i + lim.most :: lim.window * TICKS <= h[j] - h[i]
  }

  /** The pruned list answers at `now` and later like the full history `h`. */
  ghost predicate Faithful(lim: Limits, stored: seq<int>, h: seq<int>, now: int) {
    && Recent(lim, stored, now) == Recent(lim, h, now)
    && |Recent(lim, h, now)| <= lim.most
    && Sorted(h) && Spaced(lim, h)
    && forall t | t in h :: t <= now
  }

  lemma FaithfulLater(lim: Limits, stored: seq<int>, h: seq<int>, early: int, late: int)
    requires early <= late && Faithful(lim, stored, h, early)
    ensures Faithful(lim, stored, h, late)
  {
    RecentLater(lim, stored, early, late);
    RecentLater(lim, h, early, late);
    OlderIsNotMore(lim, h, early, late);
  }

  lemma FaithfulAfterAdmission(lim: Limits, stored: seq<int>, h: seq<int>, now: int)
    requires 0 < lim.most && Faithful(lim, stored, h, now) && |Recent(lim, stored, now)| < lim.most
    ensures Faithful(lim, Recent(lim, stored, now) + [now], h + [now], now)
  {
    RecentTwice(lim, stored, now);
    RecentOfExtension(lim, Recent(lim, stored, now), now, now);
    RecentOfExtension(lim, h, now, now);
    AdmittedLeavesGap(lim, h, now);
    LatestKeepsOrder(lim, h, now);
  }

  lemma LatestKeepsOrder(lim: Limits, h: seq<int>, now: int)
    requires 0 < lim.most && Sorted(h) && Spaced(lim, h) && forall t | t in h :: t <= now
    requires lim.most <= |h| ==> lim.window * TICKS <= now - h[|h| - lim.most]
    ensures Sorted(h + [now]) && Spaced(lim, h + [now])
  {
    var longer := h + [now];
    forall i, j | 0 <= i < j < |longer| ensures longer[i] <= longer[j] {
      assert h[i] in h;
    }
  }

  /** On a clock that does not go back, pruning forgets nothing that matters. */
  lemma {:induction false} PruningForgetsNothing(lim: Limits, evs: seq<Event>, ip: string, now: int)
    requires 0 < lim.most && ClockBy(evs, now)
    ensures Faithful(lim, Stored(RunFrom(lim, evs), ip), History(lim, evs, ip), now)
    decreases |evs|
  {
    if evs == [] {
      return;
    }
    var before, ev := evs[..|evs| - 1], evs[|evs| - 1];
    var last := if ev.Login? then ev.now else now;
    PruningForgetsNothing(lim, before, ip, last);
    StoredElsewhere(lim, RunFrom(lim, before), ev, ip);
    var stored, h := Stored(RunFrom(lim, before), ip), History(lim, before, ip);
    if ev.ip != ip {
      FaithfulLater(lim, stored, h, last, now);
    } else if ev.Login? {
      if |Recent(lim, stored, last)| < lim.most {
        FaithfulLater(lim, stored, h, last, ev.later);
        OlderIsNotMore(lim, stored, last, ev.later);
        FaithfulAfterAdmission(lim, stored, h, ev.later);
        FaithfulLater(lim, Recent(lim, stored, ev.later) + [ev.later], h + [ev.later], ev.later, now);
      } else {
        RecentTwice(lim, stored, last);
        FaithfulLater(lim, Recent(lim, stored, last), h, last, now);
      }
    }
  }

  lemma StoredElsewhere(lim: Limits, m: Attempts, ev: Event, ip: string)
    ensures ev.ip != ip ==> Stored(Step(lim, m, ev), ip) == Stored(m, ip)
    ensures ev == Reset(ip) ==> Stored(Step(lim, m, ev), ip) == []
  {
  }

  lemma RecentOfExtension(lim: Limits, ts: seq<int>, t: int, now: int)
    ensures Recent(lim, ts + [t], now) == Recent(lim, ts, now) + if IsRecent(lim, t, now) then [t] else []
  {
    assert (ts + [t])[..|ts|] == ts;
  }

  lemma {:induction false} OlderIsNotMore(lim: Limits, ts: seq<int>, early: int, late: int)
    requires early <= late
    ensures |Recent(lim, ts, late)| <= |Recent(lim, ts, early)| <= |ts|
  {
    if ts != [] {
      OlderIsNotMore(lim, ts[..|ts| - 1], early, late);
    }
  }

  /** In a sorted list the recent instants are a suffix. */
  lemma {:induction false} RecentIsSuffix(lim: Limits, ts: seq<int>, now: int)
    requires Sorted(ts)
    ensures var n := |Recent(lim, ts, now)|;
      && n <= |ts|
      && Recent(lim, ts, now) == ts[|ts| - n..]
      && (forall i | 0 <= i < |ts| - n :: !IsRecent(lim, ts[i], now))
      && (forall i | |ts| - n <= i < |ts| :: IsRecent(lim, ts[i], now))
  {
    if ts != [] {
      var front, last := ts[..|ts| - 1], ts[|ts| - 1];
      RecentIsSuffix(lim, front, now);
      var k := |front| - |Recent(lim, front, now)|;
      if IsRecent(lim, last, now) {
        assert ts[k..] == front[k..] + [last];
      } else {
        assert forall i | 0 <= i < |front| :: front[i] <= last;
        assert |Recent(lim, front, now)| == 0;
      }
    }
  }

  lemma AdmittedLeavesGap(lim: Limits, h: seq<int>, now: int)
    requires 0 < lim.most && Sorted(h) && |Recent(lim, h, now)| < lim.most
    ensures lim.most <= |h| ==> lim.window * TICKS <= now - h[|h| - lim.most]
  {
    RecentIsSuffix(lim, h, now);
  }

  /** A login is admitted iff fewer than `most` attempts admitted since the last reset lie within
      the window before it. */
  lemma AdmittedIff(lim: Limits, evs: seq<Event>, ip: string, now: int)
    requires 0 < lim.most && ClockBy(evs, now)
    ensures Admitted(lim, evs, ip, now) <==> |Recent(lim, History(lim, evs, ip), now)| < lim.most
  {
    PruningForgetsNothing(lim, evs, ip, now);
  }

  /** In other words: iff fewer than `most` attempts were admitted since the last reset, or the one `most`
      before is at least the window ago. */
  lemma AdmittedByGap(lim: Limits, evs: seq<Event>, ip: string, now: int)
    requires 0 < lim.most && ClockBy(evs, now)
    ensures var h := History(lim, evs, ip);
      Admitted(lim, evs, ip, now) <==> |h| < lim.most || lim.window * TICKS <= now - h[|h| - lim.most]
  {
    PruningForgetsNothing(lim, evs, ip, now);
    RecentIsSuffix(lim, History(lim, evs, ip), now);
  }

  /** Pruning keeps exactly the attempts of an address that lie within the window, drops it from the table when
      there are none, and leaves other addresses alone. */
  lemma PruneKeepsWindow(lim: Limits, m: Attempts, ip: string, now: int, t: int)
    ensures var m' := Pruned(lim, m, ip, now);
      && (ip in m' <==> exists x :: x in Stored(m, ip) && now - x < lim.window * TICKS)
      && (t in Stored(m', ip) <==> t in Stored(m, ip) && now - t < lim.window * TICKS)
      && m' - {ip} == m - {ip}
  {
    RecentIsFilter(lim, Stored(m, ip), now, t);
    var recent := Recent(lim, Stored(m, ip), now);
    if recent != [] {
      RecentIsFilter(lim, Stored(m, ip), now, recent[0]);
    } else {
      forall x ensures !(x in Stored(m, ip) && now - x < lim.window * TICKS) {
        RecentIsFilter(lim, Stored(m, ip), now, x);
      }
    }
  }

  /** The table holds no empty lists: an address whose attempts have all left the window is dropped when it is
      next looked at. */
  lemma {:induction false} NoEmptyLists(lim: Limits, evs: seq<Event>, ip: string)
    ensures ip in RunFrom(lim, evs) ==> RunFrom(lim, evs)[ip] != []
  {
    if evs != [] {
      NoEmptyLists(lim, evs[..|evs| - 1], ip);
    }
  }

  /** A limit of zero or less switches the limiter off: everyone is admitted, and nothing is stored. */
  lemma {:induction false} OffAdmitsEveryone(lim: Limits, evs: seq<Event>, ip: string, now: int)
    requires lim.most <= 0
    ensures Admitted(lim, evs, ip, now) && RunFrom(lim, evs) == map[]
  {
    if evs != [] {
      OffAdmitsEveryone(lim, evs[..|evs| - 1], ip, now);
    }
  }

  /** Any `most + 1` admitted attempts of an IP between two resets span at least the window. */
  lemma AttemptsSpanWindow(lim: Limits, evs: seq<Event>, ip: string, now: int, i: nat)
    requires 0 < lim.most && ClockBy(evs, now) && i + lim.most < |History(lim, evs, ip)|
    ensures lim.window * TICKS <= History(lim, evs, ip)[i + lim.most] - History(lim, evs, ip)[i]
  {
    PruningForgetsNothing(lim, evs, ip, now);
  }

  /** After a refusal the instant of readmission is the oldest counted attempt plus the window: the
      answer names it rounded up by at most one second, and a check then admits. */
  lemma RetryAfterIsSharp(lim: Limits, evs: seq<Event>, ip: string, now: int)
    requires 0 < lim.most && ClockBy(evs, now) && !Admitted(lim, evs, ip, now)
    ensures var ts := Stored(RunFrom(lim, evs), ip);
      var free := Oldest(Recent(lim, ts, now)) + lim.window * TICKS;
      var r := CheckAnswer(lim, ts, now).value;
      && (forall later | now <= later :: Admitted(lim, evs, ip, later) <==> free <= later)
      && free < now + r * TICKS <= free + TICKS
      && Admitted(lim, evs, ip, now + r * TICKS)
  {
    PruningForgetsNothing(lim, evs, ip, now);
    FreeWhenOldestLeaves(lim, Stored(RunFrom(lim, evs), ip), History(lim, evs, ip), now);
  }

  lemma FreeWhenOldestLeaves(lim: Limits, stored: seq<int>, h: seq<int>, now: int)
    requires 0 < lim.most && Faithful(lim, stored, h, now) && CheckAnswer(lim, stored, now).Some?
    ensures var free := Oldest(Recent(lim, stored, now)) + lim.window * TICKS;
      var r := CheckAnswer(lim, stored, now).value;
      && (forall later | now <= later :: CheckAnswer(lim, stored, later).None? <==> free <= later)
      && free < now + r * TICKS <= free + TICKS
      && CheckAnswer(lim, stored, now + r * TICKS).None?
  {
    RecentIsSuffix(lim, h, now);
    forall later | now <= later
      ensures CheckAnswer(lim, stored, later).None? <==> Oldest(Recent(lim, stored, now)) + lim.window * TICKS <= later
    {
      OldestLeaves(lim, stored, now, later);
    }
    RecentIsFilter(lim, stored, now, Oldest(Recent(lim, stored, now)));
    RetryArithmetic(lim, Oldest(Recent(lim, stored, now)), now);
  }

  lemma {:induction false} RecentIsFilter(lim: Limits, ts: seq<int>, now: int, t: int)
    ensures t in Recent(lim, ts, now) <==> t in ts && IsRecent(lim, t, now)
  {
    if ts != [] {
      RecentIsFilter(lim, ts[..|ts| - 1], now, t);
      assert ts == ts[..|ts| - 1] + [ts[|ts| - 1]];
    }
  }

  lemma OldestLeaves(lim: Limits, stored: seq<int>, now: int, later: int)
    requires var recent := Recent(lim, stored, now); 0 < lim.most == |recent| && Sorted(recent)
    requires now <= later
    ensures CheckAnswer(lim, stored, later).None? <==> Oldest(Recent(lim, stored, now)) + lim.window * TICKS <= later
  {
    var recent := Recent(lim, stored, now);
    assert Oldest(recent) == recent[0] by {
      OldestOfSorted(recent);
    }
    RecentLater(lim, stored, now, later);
    RecentIsSuffix(lim, recent, later);
  }

  lemma OldestOfSorted(ts: seq<int>)
    requires ts != [] && Sorted(ts)
    ensures Oldest(ts) == ts[0]
  {
    var i :| 0 <= i < |ts| && ts[i] == Oldest(ts);
    assert ts[0] in ts;
  }

  lemma RetryArithmetic(lim: Limits, oldest: int, now: int)
    requires IsRecent(lim, oldest, now)
    ensures var free := oldest + lim.window * TICKS;
      free < now + RetryAfter(lim, oldest, now) * TICKS <= free + TICKS
  {
  }
}
