/** The session store with idle timeouts that are enforced lazily, when a session is looked at.
    Instants are microseconds, timeouts are seconds, and the clock is an argument. */
module Sessions {
  import opened Lists

  const TICKS := 1000000

  /** The store's default, no expiry at all, or a number of seconds. */
  datatype Timeout = UseDefault | Never | Seconds(n: int)

  datatype Entry = Entry(user: int, dek: int, lastSeen: int, restricted: bool, timeout: Timeout)

  datatype Status = Status(enabled: bool, timeoutSeconds: Option<int>, remainingSeconds: Option<int>)

  /** One keyword of an update. */
  datatype Setting =
    | SetUser(user: int)
    | SetDek(dek: int)
    | SetLastSeen(at: int)
    | SetRestricted(restricted: bool)
    | SetTimeout(timeout: Timeout)

  type Sessions = map<string, Entry>

  function Effective(idle: int, e: Entry): Option<int> {
    match e.timeout
    case UseDefault => Some(idle)
    case Never => None
    case Seconds(n) => Some(n)
  }

  predicate IsExpired(idle: int, e: Entry, now: int) {
    var timeout := Effective(idle, e);
    timeout.Some? && timeout.value * TICKS < now - e.lastSeen
  }

  function Looked(idle: int, m: Sessions, id: string, now: int): Sessions {
    if id in m && IsExpired(idle, m[id], now) then m - {id} else m
  }

  function Found(idle: int, m: Sessions, id: string, now: int): Option<Entry> {
    if id in m && !IsExpired(idle, m[id], now) then Some(m[id]) else None
  }

  function Refreshed(idle: int, m: Sessions, id: string, now: int): Sessions {
    match Found(idle, m, id, now)
    case Some(e) => m[id := e.(lastSeen := now)]
    case None => Looked(idle, m, id, now)
  }

  function Touch(e: Option<Entry>, now: int): Option<Entry> {
    if e.Some? then Some(e.value.(lastSeen := now)) else None
  }

  function Remaining(idle: int, e: Entry, now: int): Status {
    match Effective(idle, e)
    case None => Status(false, None, None)
    case Some(n) =>
      var left := (n * TICKS - (now - e.lastSeen)) / TICKS;
      Status(true, Some(n), Some(if left < 0 then 0 else left))
  }

  function With(e: Entry, c: Setting): Entry {
    match c
    case SetUser(u) => e.(user := u)
    case SetDek(d) => e.(dek := d)
    case SetLastSeen(at) => e.(lastSeen := at)
    case SetRestricted(r) => e.(restricted := r)
    case SetTimeout(t) => e.(timeout := t)
  }

  /** The settings take effect one after the other. */
  function Changed(e: Entry, cs: seq<Setting>): Entry {
    if cs == [] then e else With(Changed(e, cs[..|cs| - 1]), cs[|cs| - 1])
  }

  class SessionStore {
    const idle: int
    var sessions: Sessions

    constructor (idle: int)
      ensures this.idle == idle && sessions == map[]
    {
      this.idle := idle;
      sessions := map[];
    }

    /** `id` is the fresh random token of the new session. */
    method Create(id: string, user: int, dek: int, restricted: bool, timeout: Timeout, now: int)
      requires id !in sessions
      modifies this
      ensures sessions == old(sessions)[id := Entry(user, dek, now, restricted, timeout)]
    {
      sessions := sessions[id := Entry(user, dek, now, restricted, timeout)];
    }

    method Get(id: string, now: int) returns (e: Option<Entry>)
      modifies this
      ensures e == Touch(Found(idle, old(sessions), id, now), now)
      ensures sessions == Refreshed(idle, old(sessions), id, now)
    {
      if id !in sessions {
        return None;
      }
      var entry := sessions[id];
      var timeout := Effective(idle, entry);
      if timeout.Some? && timeout.value * TICKS < now - entry.lastSeen {
        sessions := sessions - {id};
        return None;
      }
      sessions := sessions[id := entry.(lastSeen := now)];
      return Some(sessions[id]);
    }

    method Peek(id: string, now: int) returns (e: Option<Entry>)
      modifies this
      ensures e == Found(idle, old(sessions), id, now)
      ensures sessions == Looked(idle, old(sessions), id, now)
    {
      if id !in sessions {
        return None;
      }
      var entry := sessions[id];
      var timeout := Effective(idle, entry);
      if timeout.Some? && timeout.value * TICKS < now - entry.lastSeen {
        sessions := sessions - {id};
        return None;
      }
      return Some(entry);
    }

    method GetStatus(id: string, now: int) returns (status: Option<Status>)
      modifies this
      ensures status == match Found(idle, old(sessions), id, now)
        case Some(e) => Some(Remaining(idle, e, now))
        case None => None
      ensures sessions == Looked(idle, old(sessions), id, now)
    {
      if id !in sessions {
        return None;
      }
      var entry := sessions[id];
      var timeout := Effective(idle, entry);
      if timeout.None? {
        return Some(Status(false, None, None));
      }
      var elapsed := now - entry.lastSeen;
      if timeout.value * TICKS < elapsed {
        sessions := sessions - {id};
        return None;
      }
      var remaining := (timeout.value * TICKS - elapsed) / TICKS;
      return Some(Status(true, timeout, Some(if remaining < 0 then 0 else remaining)));
    }

    method Update(id: string, cs: seq<Setting>)
      modifies this
      ensures sessions == if id !in old(sessions) then old(sessions)
        else old(sessions)[id := Changed(old(sessions)[id], cs)]
    {
      if id in sessions {
        for i := 0 to |cs|
          invariant sessions == old(sessions)[id := Changed(old(sessions)[id], cs[..i])]
        {
          assert cs[..i + 1][..i] == cs[..i];
          sessions := sessions[id := With(sessions[id], cs[i])];
        }
        assert cs[..|cs|] == cs;
      }
    }

    method Delete(id: string)
      modifies this
      ensures sessions == old(sessions) - {id}
    {
      sessions := sessions - {id};
    }
  }

  /** The seconds a status reports are the whole seconds the session has left. */
  lemma RemainingIsWholeSecondsLeft(idle: int, e: Entry, now: int)
    requires !IsExpired(idle, e, now) && Effective(idle, e).Some?
    ensures var left := Remaining(idle, e, now).remainingSeconds.value;
      && !IsExpired(idle, e, now + left * TICKS)
      && IsExpired(idle, e, now + (left + 1) * TICKS)
  {
  }

  // ----- How long a session lasts -----

  /** The session may still be used: its own timeout, if it has one, else the default has not passed since
      it was last seen. */
  predicate InTime(idle: int, e: Entry, now: int) {
    match e.timeout
    case Never => true
    case Seconds(n) => now - e.lastSeen <= n * TICKS
    case UseDefault => now - e.lastSeen <= idle * TICKS
  }

  /** A `get` returns a held session, seen now, iff it is in time, and removes it if not; other sessions
      are left alone. */
  lemma GetSucceedsIff(idle: int, m: Sessions, id: string, now: int)
    ensures var got, m' := Touch(Found(idle, m, id, now), now), Refreshed(idle, m, id, now);
      && (got.Some? <==> id in m && InTime(idle, m[id], now))
      && (got.Some? ==> got.value == m[id].(lastSeen := now) && id in m' && m'[id] == got.value)
      && (got.None? ==> id !in m')
      && m' - {id} == m - {id}
  {
  }

  /** A look returns the session as it is under the same condition, and leaves it as it is. */
  lemma LookSucceedsIff(idle: int, m: Sessions, id: string, now: int)
    ensures var found, m' := Found(idle, m, id, now), Looked(idle, m, id, now);
      && (found.Some? <==> id in m && InTime(idle, m[id], now))
      && (found.Some? ==> found.value == m[id] && m' == m)
      && (found.None? ==> m' == m - {id})
  {
    if id !in m {
      assert m - {id} == m;
    }
  }

  /** A status reports the timeout in force, or that there is none. */
  lemma StatusReportsTimeout(idle: int, e: Entry, now: int)
    ensures var status := Remaining(idle, e, now);
      && (status.enabled <==> !e.timeout.Never?)
      && status.timeoutSeconds
         == (match e.timeout case Never => None case Seconds(n) => Some(n) case UseDefault => Some(idle))
      && (status.remainingSeconds.Some? <==> status.enabled)
      && (status.enabled ==> 0 <= status.remainingSeconds.value)
  {
  }

  // ----- What an update sets -----

  predicate SameField(a: Setting, b: Setting) {
    || (a.SetUser? && b.SetUser?) || (a.SetDek? && b.SetDek?) || (a.SetLastSeen? && b.SetLastSeen?)
    || (a.SetRestricted? && b.SetRestricted?) || (a.SetTimeout? && b.SetTimeout?)
  }

  /** The session has the field as set. */
  predicate Has(e: Entry, c: Setting) {
    match c
    case SetUser(u) => e.user == u
    case SetDek(d) => e.dek == d
    case SetLastSeen(at) => e.lastSeen == at
    case SetRestricted(r) => e.restricted == r
    case SetTimeout(t) => e.timeout == t
  }

  /** Fields that no setting names stay. */
  lemma {:induction false} OtherFieldsStay(e: Entry, cs: seq<Setting>, c: Setting)
    requires forall i | 0 <= i < |cs| :: !SameField(cs[i], c)
    ensures Has(Changed(e, cs), c) <==> Has(e, c)
  {
    if cs != [] {
      assert !SameField(cs[|cs| - 1], c);
      OtherFieldsStay(e, cs[..|cs| - 1], c);
    }
  }

  /** The last setting of a field is what an update leaves. */
  lemma {:induction false} LastSettingWins(e: Entry, cs: seq<Setting>, i: nat)
    requires i < |cs| && forall j | i < j < |cs| :: !SameField(cs[j], cs[i])
    ensures Has(Changed(e, cs), cs[i])
  {
    if i < |cs| - 1 {
      assert !SameField(cs[|cs| - 1], cs[i]);
      LastSettingWins(e, cs[..|cs| - 1], i);
    }
  }

  // ----- Runs -----

  datatype Event =
    | Created(id: string, entry: Entry)
    | Got(id: string, now: int)
    | Peeked(id: string, now: int)
    | Asked(id: string, now: int)
    | Updated(id: string, settings: seq<Setting>)
    | Removed(id: string)

  function Step(idle: int, m: Sessions, ev: Event): Sessions {
    match ev
    case Created(id, entry) => m[id := entry]
    case Got(id, now) => Refreshed(idle, m, id, now)
    case Peeked(id, now) => Looked(idle, m, id, now)
    case Asked(id, now) => Looked(idle, m, id, now)
    case Updated(id, cs) => if id in m then m[id := Changed(m[id], cs)] else m
    case Removed(id) => m - {id}
  }

  function After(idle: int, evs: seq<Event>): Sessions {
    if evs == [] then map[] else Step(idle, After(idle, evs[..|evs| - 1]), evs[|evs| - 1])
  }

  function Instant(ev: Event): Option<int> {
    match ev
    case Created(_, entry) => Some(entry.lastSeen)
    case Got(_, now) => Some(now)
    case Peeked(_, now) => Some(now)
    case Asked(_, now) => Some(now)
    case _ => None
  }

  predicate ClockBy(evs: seq<Event>, now: int) {
    evs == [] ||
    match Instant(evs[|evs| - 1])
    case Some(at) => at <= now && ClockBy(evs[..|evs| - 1], at)
    case None => ClockBy(evs[..|evs| - 1], now)
  }

  /** The latest instant a run has seen. */
  function Latest(evs: seq<Event>): Option<int> {
    if evs == [] then None
    else if Instant(evs[|evs| - 1]).Some? then Instant(evs[|evs| - 1])
    else Latest(evs[..|evs| - 1])
  }

  /** The session as an eager store would know it: made by a create, seen by every `get` that comes
      in time, gone by a delete. Nothing else matters, and nothing is ever cleaned up. */
  function Known(idle: int, evs: seq<Event>, id: string): Option<Entry> {
    if evs == [] then None
    else
      var known := Known(idle, evs[..|evs| - 1], id);
      match evs[|evs| - 1]
      case Created(i, entry) => if i == id then Some(entry) else known
      case Got(i, now) =>
        if i == id && known.Some? && InTime(idle, known.value, now) then Some(known.value.(lastSeen := now)) else known
      case Updated(i, cs) => if i == id && known.Some? then Some(Changed(known.value, cs)) else known
      case Removed(i) => if i == id then None else known
      case _ => known
  }

  /** The answer of the eager rule: the session is there iff the gap since its creation or last
      successful `get` is within its timeout. */
  function EagerGet(idle: int, evs: seq<Event>, id: string, now: int): Option<Entry> {
    var known := Known(idle, evs, id);
    if known.Some? && InTime(idle, known.value, now) then Some(known.value.(lastSeen := now)) else None
  }

  /** The settings bring a session back that is overdue. */
  predicate Rescues(idle: int, e: Entry, cs: seq<Setting>, at: int) {
    IsExpired(idle, e, at) && !IsExpired(idle, Changed(e, cs), at)
  }

  /** Is the last event of the run no update that rescues an overdue session? */
  predicate IsGuarded(idle: int, evs: seq<Event>)
    requires evs != []
  {
    var before, ev := evs[..|evs| - 1], evs[|evs| - 1];
    ev.Updated? && Latest(before).Some? && Known(idle, before, ev.id).Some? ==>
      !Rescues(idle, Known(idle, before, ev.id).value, ev.settings, Latest(before).value)
  }

  /** No update of the run rescues an overdue session. */
  predicate Guarded(idle: int, evs: seq<Event>) {
    evs == [] || (Guarded(idle, evs[..|evs| - 1]) && IsGuarded(idle, evs))
  }

  function Held(m: Sessions, id: string): Option<Entry> {
    if id in m then Some(m[id]) else None
  }

  /** What the lazy store holds is what the eager one knows, except that overdue sessions may be
      missing. */
  ghost predicate Agrees(idle: int, held: Option<Entry>, known: Option<Entry>, latest: Option<int>) {
    || held == known
    || (held.None? && known.Some? && latest.Some? && IsExpired(idle, known.value, latest.value))
  }

  lemma {:induction false} LatestIsPast(evs: seq<Event>, now: int)
    requires ClockBy(evs, now)
    ensures Latest(evs).Some? ==> Latest(evs).value <= now
  {
    if evs != [] && Instant(evs[|evs| - 1]).None? {
      LatestIsPast(evs[..|evs| - 1], now);
    }
  }

  lemma {:induction false} LazyAgrees(idle: int, evs: seq<Event>, id: string, now: int)
    requires ClockBy(evs, now) && Guarded(idle, evs)
    ensures Agrees(idle, Held(After(idle, evs), id), Known(idle, evs, id), Latest(evs))
    decreases |evs|
  {
    if evs != [] {
      var before, ev := evs[..|evs| - 1], evs[|evs| - 1];
      var at := if Instant(ev).Some? then Instant(ev).value else now;
      LazyAgrees(idle, before, id, at);
      LatestIsPast(before, at);
    }
  }

  /** Over any run whose updates rescue no overdue session, `get` answers as the eager rule does. */
  lemma LazyExpiryRefinesEager(idle: int, evs: seq<Event>, id: string, now: int)
    requires ClockBy(evs, now) && Guarded(idle, evs)
    ensures Touch(Found(idle, After(idle, evs), id, now), now) == EagerGet(idle, evs, id, now)
  {
    LazyAgrees(idle, evs, id, now);
    LatestIsPast(evs, now);
  }

  /** The run without its `peek` and `status` calls. */
  function WithoutLooks(evs: seq<Event>): seq<Event> {
    if evs == [] then []
    else
      var front, ev := WithoutLooks(evs[..|evs| - 1]), evs[|evs| - 1];
      if ev.Peeked? || ev.Asked? then front else front + [ev]
  }

  lemma {:induction false} LooksDoNotMatter(idle: int, evs: seq<Event>, id: string)
    ensures Known(idle, WithoutLooks(evs), id) == Known(idle, evs, id)
  {
    if evs != [] {
      LooksDoNotMatter(idle, evs[..|evs| - 1], id);
      var w := WithoutLooks(evs);
      var ev := evs[|evs| - 1];
      if !ev.Peeked? && !ev.Asked? {
        assert w[..|w| - 1] == WithoutLooks(evs[..|evs| - 1]);
      }
    }
  }

  /** Two such runs that differ only in `peek` and `status` calls answer every later `get` alike. */
  lemma LooksAreInvisible(idle: int, a: seq<Event>, b: seq<Event>, id: string, now: int)
    requires WithoutLooks(a) == WithoutLooks(b)
    requires ClockBy(a, now) && Guarded(idle, a) && ClockBy(b, now) && Guarded(idle, b)
    ensures Touch(Found(idle, After(idle, a), id, now), now) == Touch(Found(idle, After(idle, b), id, now), now)
  {
    LooksDoNotMatter(idle, a, id);
    LooksDoNotMatter(idle, b, id);
    LazyExpiryRefinesEager(idle, a, id, now);
    LazyExpiryRefinesEager(idle, b, id, now);
  }

  // ----- Which updates are guarded -----

  /** A look just before an update is invisible to every later `get`, iff the update does not rescue the
      session. */
  lemma LookIsInvisibleIff(idle: int, m: Sessions, id: string, cs: seq<Setting>, now: int)
    ensures (forall later | now <= later ::
              Found(idle, Step(idle, Looked(idle, m, id, now), Updated(id, cs)), id, later)
              == Found(idle, Step(idle, m, Updated(id, cs)), id, later))
        <==> !(id in m && Rescues(idle, m[id], cs, now))
  {
    var looked, quiet := Step(idle, Looked(idle, m, id, now), Updated(id, cs)), Step(idle, m, Updated(id, cs));
    if id in m && Rescues(idle, m[id], cs, now) {
      assert Found(idle, looked, id, now) != Found(idle, quiet, id, now);
    }
  }

  /** A look before any update at all is invisible iff the session is not overdue: every overdue one can
      be rescued. */
  lemma AnyUpdateIsSafeIff(idle: int, m: Sessions, id: string, now: int)
    ensures (forall cs :: !(id in m && Rescues(idle, m[id], cs, now))) <==> !(id in m && IsExpired(idle, m[id], now))
  {
    if id in m && IsExpired(idle, m[id], now) {
      assert [SetTimeout(Never)][..0] == [];
      assert Changed(m[id], [SetTimeout(Never)]) == m[id].(timeout := Never);
      assert Rescues(idle, m[id], [SetTimeout(Never)], now);
    }
  }

  /** Requests update a session only after a `get` of it has succeeded, so their updates are guarded as
      long as the session does not become overdue while the request is served, whatever other requests
      come in between. */
  lemma UpdateAfterGetIsGuarded(idle: int, before: seq<Event>, between: seq<Event>, id: string, cs: seq<Setting>,
                                at: int, now: int)
    requires var evs := before + [Got(id, at)] + between; ClockBy(evs, now) && Guarded(idle, evs)
    requires EagerGet(idle, before, id, at).Some? && !IsExpired(idle, EagerGet(idle, before, id, at).value, now)
    requires forall ev | ev in between :: LeavesAlone(ev, id)
    ensures Guarded(idle, before + [Got(id, at)] + between + [Updated(id, cs)])
  {
    var evs := before + [Got(id, at)] + between;
    StaysKnown(idle, before, between, id, at, now);
    LatestIsPast(evs, now);
    assert (evs + [Updated(id, cs)])[..|evs|] == evs;
  }

  predicate LeavesAlone(ev: Event, id: string) {
    ev.id != id || ev.Got? || ev.Peeked? || ev.Asked?
  }

  lemma {:induction false} StaysKnown(idle: int, before: seq<Event>, between: seq<Event>, id: string, at: int, now: int)
    requires ClockBy(before + [Got(id, at)] + between, now)
    requires EagerGet(idle, before, id, at).Some? && !IsExpired(idle, EagerGet(idle, before, id, at).value, now)
    requires forall ev | ev in between :: LeavesAlone(ev, id)
    ensures var known := Known(idle, before + [Got(id, at)] + between, id);
      known.Some? && known.value.timeout == EagerGet(idle, before, id, at).value.timeout && at <= known.value.lastSeen
    ensures at <= now
    decreases |between|
  {
    var evs := before + [Got(id, at)] + between;
    if between == [] {
      assert evs == before + [Got(id, at)];
      assert evs[..|evs| - 1] == before;
    } else {
      var n := |between| - 1;
      var last := if Instant(between[n]).Some? then Instant(between[n]).value else now;
      assert evs[..|evs| - 1] == before + [Got(id, at)] + between[..n];
      StaysKnown(idle, before, between[..n], id, at, last);
      assert LeavesAlone(between[n], id);
    }
  }

  /** An update made without a `get` can show that a look was missing: it rescues a session that is
      overdue but has not been looked at. */
  lemma LooksMatterBeforeRescue()
    ensures var entry := Entry(1, 2, 0, false, Seconds(10));
      var quiet := [Created("s", entry), Updated("s", [SetTimeout(Never)])];
      var looked := [Created("s", entry), Peeked("s", 11 * TICKS), Updated("s", [SetTimeout(Never)])];
      && WithoutLooks(looked) == quiet
      && Found(3600, After(3600, quiet), "s", 12 * TICKS).Some?
      && Found(3600, After(3600, looked), "s", 12 * TICKS).None?
  {
    var entry := Entry(1, 2, 0, false, Seconds(10));
    var c, p, u := Created("s", entry), Peeked("s", 11 * TICKS), Updated("s", [SetTimeout(Never)]);
    assert [c, u][..1] == [c] && [c][..0] == [];
    assert [c, p, u][..2] == [c, p] && [c, p][..1] == [c];
    assert WithoutLooks([c]) == [c] == WithoutLooks([c, p]);
    assert [SetTimeout(Never)][..0] == [];
    assert After(3600, [c]) == map["s" := entry];
    assert "s" !in After(3600, [c, p]);
  }
}
