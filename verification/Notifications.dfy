/** Browser notifications: triggers computed from the fetched items, timers scheduled for them, and
    the set of tags already shown, pruned as it is saved. Instants are milliseconds. */
module Notifications {
  import opened Lists
  import opened Decimal
  import opened Reminders
  import opened Alarms

  const DAY_MS := 86400000
  const MAX_TIMEOUT := 2147483647

  /** A fetched event or task. `own` is false for demo entries, which belong to no calendar. */
  datatype Item = Item(
    uid: string,
    own: bool,
    allDay: bool,
    start: Option<int>,
    end: Option<int>,
    reminders: seq<Entry>)

  datatype Alert = Alert(uid: string, when: int)

  datatype Timer = Timer(tag: string, epoch: int)

  // ----- Triggers of an item -----

  function UnitMs(u: Unit): nat {
    match u
    case Minutes => 60000
    case Hours => 3600000
    case Days => DAY_MS
    case Weeks => 7 * DAY_MS
  }

  /** When a reminder of an item fires, as the client computes it. */
  function FiresAt(item: Item, e: Entry): Option<int> {
    match e
    case ReadOnly(at) => at
    case Editable(r) =>
      var base := if r.anchor.End? then item.end else item.start;
      if base.None? then None
      else if item.allDay then
        if r.time.Some? && IsClockText(r.time.value) then
          var clock := ParseClock(r.time.value);
          var days := r.value * if r.unit.Weeks? then 7 else 1;
          Some(base.value + Signed(r.direction, days) * DAY_MS + clock.hour * 3600000 + clock.minute * 60000)
        else None
      else Some(base.value + Signed(r.direction, 1) * r.value * UnitMs(r.unit))
  }

  function ReminderTriggers(item: Item, n: nat): seq<Alert>
    requires n <= |item.reminders|
  {
    if n == 0 then []
    else
      match FiresAt(item, item.reminders[n - 1])
      case Some(when) => ReminderTriggers(item, n - 1) + [Alert(item.uid, when)]
      case None => ReminderTriggers(item, n - 1)
  }

  function ItemTriggers(item: Item): seq<Alert> {
    if !item.own || item.start.None? then []
    else [Alert(item.uid, item.start.value)] + ReminderTriggers(item, |item.reminders|)
  }

  function AllTriggers(items: seq<Item>): seq<Alert> {
    if items == [] then [] else AllTriggers(items[..|items| - 1]) + ItemTriggers(items[|items| - 1])
  }

  function Later(ts: seq<Alert>, now: int): seq<Alert> {
    if ts == [] then []
    else
      var front := Later(ts[..|ts| - 1], now);
      if now < ts[|ts| - 1].when then front + [ts[|ts| - 1]] else front
  }

  /** `buildTriggers`: the start and every reminder of each item, as far as they lie ahead. */
  method BuildTriggers(items: seq<Item>, now: int) returns (ahead: seq<Alert>)
    ensures ahead == Later(AllTriggers(items), now)
  {
    var out := CollectTriggers(items);
    ahead := [];
    for i := 0 to |out|
      invariant ahead == Later(out[..i], now)
    {
      assert out[..i + 1][..i] == out[..i];
      if now < out[i].when {
        ahead := ahead + [out[i]];
      }
    }
    assert out[..|out|] == out;
  }

  method CollectTriggers(items: seq<Item>) returns (out: seq<Alert>)
    ensures out == AllTriggers(items)
  {
    out := [];
    for i := 0 to |items|
      invariant out == AllTriggers(items[..i])
    {
      assert items[..i + 1][..i] == items[..i];
      var item := items[i];
      if item.own && item.start.Some? {
        out := out + [Alert(item.uid, item.start.value)];
        var rest := CollectReminders(item);
        out := out + rest;
      }
    }
    assert items[..|items|] == items;
  }

  method CollectReminders(item: Item) returns (out: seq<Alert>)
    ensures out == ReminderTriggers(item, |item.reminders|)
  {
    out := [];
    for k := 0 to |item.reminders|
      invariant out == ReminderTriggers(item, k)
    {
      var when := FiresAt(item, item.reminders[k]);
      if when.Some? {
        out := out + [Alert(item.uid, when.value)];
      }
    }
  }

  /** The browser fires a stored alarm at its anchor plus its offset iff the offset is whole minutes:
      reading the alarm for the client and computing the instant there undo each other but for the
      rounding. */
  lemma FiresAtAlarmOffsetIff(item: Item, t: Trigger)
    requires if t.related.End? then item.end.Some? else item.start.Some?
    ensures var base := if t.related.End? then item.end.value else item.start.value;
      FiresAt(item, Editable(Decode(t, item.allDay))) == Some(base + t.offset * 1000) <==> t.offset % 60 == 0
  {
    var r := Decode(t, item.allDay);
    TriggerRoundTripIff(t, item.allDay);
    RowInMs(r, item.allDay);
    assert RowMinutes(r, item.allDay) * 60000 == t.offset * 1000 <==> RowMinutes(r, item.allDay) * 60 == t.offset;
  }

  lemma RowInMs(r: Reminder, allDay: bool)
    requires FitsKind(r, allDay)
    ensures allDay ==>
      var clock := ParseClock(r.time.value);
      var days := Signed(r.direction, r.value * if r.unit.Weeks? then 7 else 1);
      days * DAY_MS + clock.hour * 3600000 + clock.minute * 60000
        == RowMinutes(r, allDay) * 60000
    ensures !allDay ==> Signed(r.direction, 1) * r.value * UnitMs(r.unit) == RowMinutes(r, allDay) * 60000
  {
  }

  // ----- Tags -----

  function TagOf(t: Alert): string {
    t.uid + ":" + Print(t.when)
  }

  /** The instant at the end of a tag, if it reads as one. */
  function EpochOf(tag: string): Option<int> {
    Parse(AfterLast(tag, ':'))
  }

  lemma TagHoldsEpoch(t: Alert)
    ensures EpochOf(TagOf(t)) == Some(t.when)
  {
    PrintHasNoColon(t.when);
    AfterLastOf(t.uid, ':', Print(t.when));
    PrintParses(t.when);
  }

  /** Tags tell triggers apart, even when uids contain colons. */
  lemma TagsAreDistinct(a: Alert, b: Alert)
    ensures TagOf(a) == TagOf(b) <==> a == b
  {
    TagHoldsEpoch(a);
    TagHoldsEpoch(b);
    if TagOf(a) == TagOf(b) {
      assert a.uid == TagOf(a)[..|TagOf(a)| - |Print(a.when)| - 1];
      assert b.uid == TagOf(b)[..|TagOf(b)| - |Print(b.when)| - 1];
    }
  }

  // ----- Timers and the set of fired tags -----

  predicate IsFresh(tag: string, now: int) {
    EpochOf(tag).Some? && now - 2 * DAY_MS <= EpochOf(tag).value
  }

  function Pruned(fired: set<string>, now: int): set<string> {
    set tag | tag in fired && IsFresh(tag, now)
  }

  predicate IsScheduled(t: Alert, fired: set<string>, now: int) {
    TagOf(t) !in fired && 0 < t.when - now <= MAX_TIMEOUT
  }

  function Timers(ts: seq<Alert>, fired: set<string>, now: int): seq<Timer> {
    if ts == [] then []
    else
      var front, t := Timers(ts[..|ts| - 1], fired, now), ts[|ts| - 1];
      if IsScheduled(t, fired, now) then front + [Timer(TagOf(t), t.when)] else front
  }

  datatype State = State(fired: set<string>, timers: seq<Timer>, shown: seq<string>)

  function Resynced(s: State, items: seq<Item>, now: int): State {
    s.(timers := Timers(Later(AllTriggers(items), now), s.fired, now))
  }

  function Fired(s: State, k: nat, now: int): State
    requires k < |s.timers|
  {
    var tag := s.timers[k].tag;
    var rest := s.timers[..k] + s.timers[k + 1..];
    if tag in s.fired then s.(timers := rest)
    else State(Pruned(s.fired + {tag}, now), rest, s.shown + [tag])
  }

  class Notifier {
    var fired: set<string>
    var timers: seq<Timer>
    var shown: seq<string>

    /** `saved` is the set of tags read from local storage. */
    constructor (saved: set<string>)
      ensures Value() == State(saved, [], [])
    {
      fired, timers, shown := saved, [], [];
    }

    function Value(): State
      reads this
    {
      State(fired, timers, shown)
    }

    method PersistFiredSet(now: int)
      modifies this`fired
      ensures fired == Pruned(old(fired), now)
    {
      var left := fired;
      var kept := {};
      while left != {}
        invariant left <= old(fired)
        invariant fired == old(fired)
        invariant kept == Pruned(old(fired) - left, now)
        decreases left
      {
        var tag :| tag in left;
        left := left - {tag};
        if IsFresh(tag, now) {
          kept := kept + {tag};
        }
      }
      fired := kept;
    }

    /** `scheduleTriggers`: all timers are cleared and set anew. */
    method ScheduleTriggers(items: seq<Item>, now: int)
      modifies this`timers
      ensures Value() == Resynced(old(Value()), items, now)
    {
      timers := [];
      var ahead := BuildTriggers(items, now);
      for i := 0 to |ahead|
        invariant timers == Timers(ahead[..i], fired, now)
      {
        assert ahead[..i + 1][..i] == ahead[..i];
        var tag := TagOf(ahead[i]);
        if tag !in fired {
          var delay := ahead[i].when - now;
          if !(delay <= 0 || MAX_TIMEOUT < delay) {
            timers := timers + [Timer(tag, ahead[i].when)];
          }
        }
      }
      assert ahead[..|ahead|] == ahead;
    }

    /** Timer `k` goes off. */
    method FireNotification(k: nat, now: int)
      requires k < |timers|
      modifies this
      ensures Value() == Fired(old(Value()), k, now)
    {
      var tag := timers[k].tag;
      timers := timers[..k] + timers[k + 1..];
      if tag in fired {
        return;
      }
      fired := fired + {tag};
      PersistFiredSet(now);
      shown := shown + [tag];
    }
  }

  // ----- Runs -----

  datatype Event = Resync(items: seq<Item>, now: int) | Fire(k: nat, now: int)

  /** The clock does not go back, and a timer goes off at most two days late. */
  predicate Allowed(s: State, clock: int, ev: Event) {
    && clock <= ev.now
    && (ev.Fire? ==> ev.k < |s.timers| && ev.now <= s.timers[ev.k].epoch + 2 * DAY_MS)
  }

  function Next(s: State, ev: Event): State
    requires ev.Fire? ==> ev.k < |s.timers|
  {
    match ev
    case Resync(items, now) => Resynced(s, items, now)
    case Fire(k, now) => Fired(s, k, now)
  }

  predicate Possible(s: State, ev: Event) {
    ev.Fire? ==> ev.k < |s.timers|
  }

  ghost predicate PossibleRun(s: State, evs: seq<Event>)
    decreases |evs|
  {
    evs != [] ==> Possible(s, evs[0]) && PossibleRun(Next(s, evs[0]), evs[1..])
  }

  ghost function Run(s: State, evs: seq<Event>): State
    requires PossibleRun(s, evs)
    decreases |evs|
  {
    if evs == [] then s else Run(Next(s, evs[0]), evs[1..])
  }

  ghost predicate AllowedRun(s: State, clock: int, evs: seq<Event>)
    requires PossibleRun(s, evs)
    decreases |evs|
  {
    evs != [] ==> Allowed(s, clock, evs[0]) && AllowedRun(Next(s, evs[0]), evs[0].now, evs[1..])
  }

  /** No tag was shown twice, each shown tag is remembered or more than two days old, and timers
      carry the instant of their tag. */
  ghost predicate Invariant(s: State, clock: int) {
    && NoDuplicates(s.shown)
    && (forall tag | tag in s.shown ::
          EpochOf(tag).Some? && (tag in s.fired || EpochOf(tag).value < clock - 2 * DAY_MS))
    && forall i | 0 <= i < |s.timers| :: EpochOf(s.timers[i].tag) == Some(s.timers[i].epoch)
  }

  lemma {:induction false} TimersHoldEpochs(ts: seq<Alert>, fired: set<string>, now: int)
    ensures forall i | 0 <= i < |Timers(ts, fired, now)| ::
      EpochOf(Timers(ts, fired, now)[i].tag) == Some(Timers(ts, fired, now)[i].epoch)
  {
    if ts != [] {
      TimersHoldEpochs(ts[..|ts| - 1], fired, now);
      TagHoldsEpoch(ts[|ts| - 1]);
    }
  }

  lemma NextKeepsInvariant(s: State, clock: int, ev: Event)
    requires Invariant(s, clock) && Allowed(s, clock, ev)
    ensures Invariant(Next(s, ev), ev.now)
  {
    match ev {
      case Resync(items, now) =>
        TimersHoldEpochs(Later(AllTriggers(items), now), s.fired, now);
      case Fire(k, now) =>
        FireKeepsInvariant(s, clock, k, now);
    }
  }

  lemma FireKeepsInvariant(s: State, clock: int, k: nat, now: int)
    requires Invariant(s, clock) && Allowed(s, clock, Fire(k, now))
    ensures Invariant(Fired(s, k, now), now)
  {
    var s', tag := Fired(s, k, now), s.timers[k].tag;
    if tag !in s.fired {
      assert tag !in s.shown;
    }
    forall i | 0 <= i < |s'.timers| ensures EpochOf(s'.timers[i].tag) == Some(s'.timers[i].epoch) {
      assert s'.timers[i] == s.timers[if i < k then i else i + 1];
    }
  }

  /** Over any run of resyncs and timers each tag is shown at most once, although fired tags are
      forgotten and several timers may carry one tag. */
  lemma {:induction false} EachTagShownOnce(s: State, clock: int, evs: seq<Event>)
    requires Invariant(s, clock) && PossibleRun(s, evs) && AllowedRun(s, clock, evs)
    ensures NoDuplicates(Run(s, evs).shown)
    decreases |evs|
  {
    if evs != [] {
      NextKeepsInvariant(s, clock, evs[0]);
      EachTagShownOnce(Next(s, evs[0]), evs[0].now, evs[1..]);
    }
  }

  // ----- Late timers -----

  /** A timer shows a tag twice iff the tag was shown and has been forgotten. */
  lemma FireRepeatsIff(s: State, k: nat, now: int)
    requires k < |s.timers| && NoDuplicates(s.shown)
    ensures var tag := s.timers[k].tag;
      NoDuplicates(Fired(s, k, now).shown) <==> tag in s.fired || tag !in s.shown
  {
    var tag := s.timers[k].tag;
    if tag in s.shown {
      var i :| 0 <= i < |s.shown| && s.shown[i] == tag;
      assert (s.shown + [tag])[i] == (s.shown + [tag])[|s.shown|];
    }
  }

  /** The instants at which a run shows something, and prunes the tags it remembers. */
  function ShowsAt(s: State, evs: seq<Event>): seq<int>
    requires PossibleRun(s, evs)
    decreases |evs|
  {
    if evs == [] then []
    else
      var rest := ShowsAt(Next(s, evs[0]), evs[1..]);
      if Shows(s, evs[0]) then [evs[0].now] + rest else rest
  }

  predicate Shows(s: State, ev: Event)
    requires Possible(s, ev)
  {
    ev.Fire? && s.timers[ev.k].tag !in s.fired
  }

  /** The run does not show this tag. */
  ghost predicate LeavesOut(s: State, evs: seq<Event>, tag: string)
    requires PossibleRun(s, evs)
    decreases |evs|
  {
    evs != [] ==> (Shows(s, evs[0]) ==> s.timers[evs[0].k].tag != tag) && LeavesOut(Next(s, evs[0]), evs[1..], tag)
  }

  /** While it is not shown again, a tag is remembered as long as everything shown is shown at most two
      days after the instant of the tag. */
  lemma {:induction false} RememberedIff(s: State, evs: seq<Event>, tag: string)
    requires PossibleRun(s, evs) && LeavesOut(s, evs, tag)
    ensures tag in Run(s, evs).fired <==> tag in s.fired && forall n | n in ShowsAt(s, evs) :: IsFresh(tag, n)
    ensures tag in Run(s, evs).shown <==> tag in s.shown
    decreases |evs|
  {
    if evs != [] {
      RememberedIff(Next(s, evs[0]), evs[1..], tag);
    }
  }

  predicate ByThen(instants: seq<int>, last: int) {
    forall n | n in instants :: n <= last
  }

  /** Two timers of one tag, with any run that shows other tags between them: the second shows the tag
      again iff the first, or anything shown in between, came more than two days after its instant. */
  lemma SecondTimerRepeatsIff(s: State, i: nat, n1: int, between: seq<Event>, j: nat, n2: int)
    requires i < |s.timers| && s.timers[i].tag !in s.fired && EpochOf(s.timers[i].tag) == Some(s.timers[i].epoch)
    requires var s1 := Fired(s, i, n1); PossibleRun(s1, between) && LeavesOut(s1, between, s.timers[i].tag)
    requires var s2 := Run(Fired(s, i, n1), between);
      j < |s2.timers| && s2.timers[j].tag == s.timers[i].tag && NoDuplicates(s2.shown)
    ensures var s1, last := Fired(s, i, n1), s.timers[i].epoch + 2 * DAY_MS;
      NoDuplicates(Fired(Run(s1, between), j, n2).shown) <==> n1 <= last && ByThen(ShowsAt(s1, between), last)
  {
    var s1, tag := Fired(s, i, n1), s.timers[i].tag;
    assert s1.shown[|s1.shown| - 1] == tag;
    RememberedIff(s1, between, tag);
    FireRepeatsIff(Run(s1, between), j, n2);
    assert forall n :: IsFresh(tag, n) <==> n <= s.timers[i].epoch + 2 * DAY_MS;
  }

  /** In particular, of two pending timers of a tag that go off one after the other, the second repeats
      it iff the first is more than two days late. */
  lemma DoubledTimerRepeatsIff(s: State, i: nat, j: nat, n1: int, n2: int)
    requires i < j < |s.timers| && s.timers[i].tag == s.timers[j].tag && s.timers[i].tag !in s.fired
    requires s.timers[i].tag !in s.shown && NoDuplicates(s.shown)
    requires EpochOf(s.timers[i].tag) == Some(s.timers[i].epoch)
    ensures j - 1 < |Fired(s, i, n1).timers| && Fired(s, i, n1).timers[j - 1] == s.timers[j]
    ensures NoDuplicates(Fired(Fired(s, i, n1), j - 1, n2).shown) <==> n1 <= s.timers[i].epoch + 2 * DAY_MS
  {
    FireRepeatsIff(s, i, n1);
    assert Run(Fired(s, i, n1), []) == Fired(s, i, n1);
    SecondTimerRepeatsIff(s, i, n1, [], j - 1, n2);
  }

  /** An event with a reminder of zero minutes: two triggers, one tag. */
  const DOUBLED :=
    Item("a", true, false, Some(1000), None, [Editable(Reminder(0, Minutes, None, Start, Reminders.Before))])

  lemma DoubledHasTwoTimers()
    ensures var timer := Timer(TagOf(Alert("a", 1000)), 1000);
      Resynced(State({}, [], []), [DOUBLED], 0) == State({}, [timer, timer], [])
  {
    assert FiresAt(DOUBLED, DOUBLED.reminders[0]) == Some(1000);
    assert ReminderTriggers(DOUBLED, 1) == [Alert("a", 1000)];
    TwoTimers(DOUBLED, Alert("a", 1000), 0);
  }

  lemma TwoTimers(item: Item, t: Alert, now: int)
    requires ItemTriggers(item) == [t, t] && now < t.when <= now + MAX_TIMEOUT
    ensures Resynced(State({}, [], []), [item], now).timers == [Timer(TagOf(t), t.when), Timer(TagOf(t), t.when)]
  {
    assert [item][..0] == [];
    assert AllTriggers([item]) == [t, t];
    BothAhead(t, now);
    BothScheduled(t, now);
  }

  lemma BothAhead(t: Alert, now: int)
    requires now < t.when
    ensures Later([t, t], now) == [t, t]
  {
    assert [t][..0] == [] && [t, t][..1] == [t];
    assert Later([t], now) == [t];
  }

  lemma BothScheduled(t: Alert, now: int)
    requires IsScheduled(t, {}, now)
    ensures Timers([t, t], {}, now) == [Timer(TagOf(t), t.when), Timer(TagOf(t), t.when)]
  {
    assert [t][..0] == [] && [t, t][..1] == [t];
    assert Timers([t], {}, now) == [Timer(TagOf(t), t.when)];
  }

  /** A timer later than two days forgets its tag as it fires; a second timer for a start and a
      reminder at the same instant then shows it again. */
  lemma TooLateShowsTwice()
    ensures var late := 1001 + 2 * DAY_MS;
      var s0 := Resynced(State({}, [], []), [DOUBLED], 0);
      && |s0.timers| == 2
      && |Fired(s0, 0, late).timers| == 1
      && !NoDuplicates(Fired(Fired(s0, 0, late), 0, late).shown)
  {
    var late := 1001 + 2 * DAY_MS;
    DoubledHasTwoTimers();
    TagHoldsEpoch(Alert("a", 1000));
    StaleTimersFireTwice(Timer(TagOf(Alert("a", 1000)), 1000), late);
  }

  lemma StaleTimersFireTwice(timer: Timer, now: int)
    requires !IsFresh(timer.tag, now)
    ensures var s1 := Fired(State({}, [timer, timer], []), 0, now);
      s1.timers == [timer] && !NoDuplicates(Fired(s1, 0, now).shown)
  {
    var s1 := Fired(State({}, [timer, timer], []), 0, now);
    assert s1.fired == {} && s1.timers == [timer] && s1.shown == [timer.tag];
    var s2 := Fired(s1, 0, now);
    assert s2.shown[0] == s2.shown[1];
  }

  /** An item calls for an alert when it starts and when each of its reminders fires, if it belongs to a
      calendar and has a start. */
  ghost predicate CallsFor(item: Item, when: int) {
    && item.own && item.start.Some?
    && (when == item.start.value
        || exists k | 0 <= k < |item.reminders| :: FiresAt(item, item.reminders[k]) == Some(when))
  }

  /** When a reminder fires: a read-only one at its instant, an editable one iff the item has the end it is
      relative to and, on an all-day item, it has a clock time. */
  lemma ReminderFiresIff(item: Item, e: Entry)
    ensures e.ReadOnly? ==> FiresAt(item, e) == e.at
    ensures e.Editable? ==>
      var base := if e.row.anchor.End? then item.end else item.start;
      (FiresAt(item, e).Some? <==>
        base.Some? && (item.allDay ==> e.row.time.Some? && IsClockText(e.row.time.value)))
  {
  }

  lemma {:induction false} ReminderTriggersAre(item: Item, n: nat, t: Alert)
    requires n <= |item.reminders|
    ensures t in ReminderTriggers(item, n)
        <==> t.uid == item.uid && exists k | 0 <= k < n :: FiresAt(item, item.reminders[k]) == Some(t.when)
  {
    if n != 0 {
      ReminderTriggersAre(item, n - 1, t);
    }
  }

  /** The triggers of the items are the alerts they call for. */
  lemma {:induction false} TriggersAreCalledFor(items: seq<Item>, t: Alert)
    ensures t in AllTriggers(items) <==> exists item :: item in items && item.uid == t.uid && CallsFor(item, t.when)
  {
    if items != [] {
      var front, last := items[..|items| - 1], items[|items| - 1];
      TriggersAreCalledFor(front, t);
      ReminderTriggersAre(last, |last.reminders|, t);
      assert items == front + [last];
      assert t in ItemTriggers(last) <==> last.uid == t.uid && CallsFor(last, t.when);
    }
  }

  /** A resync leaves a timer for exactly the alerts the items call for that lie ahead within the timer
      ceiling and have not been shown. */
  lemma ResyncSchedules(s: State, items: seq<Item>, now: int, t: Alert)
    ensures Timer(TagOf(t), t.when) in Resynced(s, items, now).timers <==>
      && (exists item :: item in items && item.uid == t.uid && CallsFor(item, t.when))
      && now < t.when <= now + MAX_TIMEOUT && TagOf(t) !in s.fired
  {
    TriggersAreCalledFor(items, t);
    LaterIsFilter(AllTriggers(items), now, t);
    TimersAreFilter(Later(AllTriggers(items), now), s.fired, now, t);
  }

  lemma {:induction false} LaterIsFilter(ts: seq<Alert>, now: int, t: Alert)
    ensures t in Later(ts, now) <==> t in ts && now < t.when
  {
    if ts != [] {
      LaterIsFilter(ts[..|ts| - 1], now, t);
      assert ts == ts[..|ts| - 1] + [ts[|ts| - 1]];
    }
  }

  lemma {:induction false} TimersAreFilter(ts: seq<Alert>, fired: set<string>, now: int, t: Alert)
    ensures Timer(TagOf(t), t.when) in Timers(ts, fired, now) <==> t in ts && IsScheduled(t, fired, now)
  {
    if ts != [] {
      TimersAreFilter(ts[..|ts| - 1], fired, now, t);
      TagsAreDistinct(t, ts[|ts| - 1]);
      assert ts == ts[..|ts| - 1] + [ts[|ts| - 1]];
    }
  }
}
