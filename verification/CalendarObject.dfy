/** One calendar resource holding a recurring event or task: a master component and the detached
    overrides of single occurrences, each keyed by its RECURRENCE-ID. The functions say what each
    edit makes of a resource; class `Ical` makes the edit in place, step by step. */
module CalendarObject {
  import opened Lists
  import opened Recurrence
  import opened Reminders
  import opened Alarms

  // ----- Data model -----

  /** STATUS, COMPLETED and PERCENT-COMPLETE of a task; all absent on an event. */
  datatype Progress = Progress(status: string, completed: Option<int>, percent: Option<int>)

  const NO_PROGRESS := Progress("", None, None)

  /** The properties of one component. Absent text is "". `end` is DTEND of an event, DUE of a task. */
  datatype Body = Body(
    uid: string,
    start: Option<int>,
    end: Option<int>,
    duration: Option<int>,
    title: string,
    location: string,
    description: string,
    progress: Progress,
    priority: Option<int>,
    subs: seq<Sub>)

  datatype Override = Override(rid: int, body: Body)

  datatype Master = Master(body: Body, allDay: bool, rule: Option<Rule>, exdates: seq<int>)

  datatype Series = Series(master: Master, overrides: seq<Override>)

  datatype Field = Time | Title | Location | Description | Priority | Alerts

  /** Requests for tasks set or remove the priority, requests for events do not know of it. */
  datatype PriorityEdit = Untouched | SetTo(value: Option<int>)

  /** What a request asks for: new field values, a new rule if any, the reminder triggers to set if
      any, the priority of a task, and the fields to reset on every override. */
  datatype Edit = Edit(
    title: string,
    location: string,
    description: string,
    start: Option<int>,
    end: Option<int>,
    rule: Option<Rule>,
    reminders: Option<seq<Trigger>>,
    priority: PriorityEdit,
    reset: set<Field>)

  /** DTSTART, or DTEND/DUE where there is no DTSTART. */
  function AnchorOf(b: Body): Option<int> {
    if b.start.Some? then b.start else b.end
  }

  datatype Kind = Event | Todo

  /** What the slots of a resource are counted from: events need a start, tasks make do with a due
      date. */
  function BaseOf(kind: Kind, b: Body): Option<int> {
    if kind.Event? then b.start else AnchorOf(b)
  }

  function HasEnd(b: Body): bool {
    b.end.Some? || b.duration.Some?
  }

  // ----- Lists of overrides and of times -----

  datatype Cut = Below(p: int) | AtOrAfter(p: int) | NotAt(p: int) | OnlyAt(p: int)

  predicate Keeps(cut: Cut, t: int) {
    match cut
    case Below(p) => t < p
    case AtOrAfter(p) => p <= t
    case NotAt(p) => t != p
    case OnlyAt(p) => t == p
  }

  function Opposite(cut: Cut): (other: Cut)
    ensures forall t :: Keeps(other, t) <==> !Keeps(cut, t)
  {
    match cut
    case Below(p) => AtOrAfter(p)
    case AtOrAfter(p) => Below(p)
    case NotAt(p) => OnlyAt(p)
    case OnlyAt(p) => NotAt(p)
  }

  function KeepRids(ovs: seq<Override>, cut: Cut): seq<Override> {
    if ovs == [] then []
    else
      var front := KeepRids(ovs[..|ovs| - 1], cut);
      if Keeps(cut, ovs[|ovs| - 1].rid) then front + [ovs[|ovs| - 1]] else front
  }

  function KeepTimes(ts: seq<int>, cut: Cut): seq<int> {
    if ts == [] then []
    else
      var front := KeepTimes(ts[..|ts| - 1], cut);
      if Keeps(cut, ts[|ts| - 1]) then front + [ts[|ts| - 1]] else front
  }

  function ShiftTimes(ts: seq<int>, d: int): (moved: seq<int>)
    ensures |moved| == |ts| && forall i | 0 <= i < |ts| :: moved[i] == ts[i] + d
  {
    seq(|ts|, i requires 0 <= i < |ts| => ts[i] + d)
  }

  /** The first override with this RECURRENCE-ID. */
  function Find(ovs: seq<Override>, t: int): Option<Override> {
    if ovs == [] then None
    else if ovs[0].rid == t then Some(ovs[0])
    else Find(ovs[1..], t)
  }

  /** The first override whose own anchor is at `t`. */
  function FindByAnchor(ovs: seq<Override>, t: int): Option<Override> {
    if ovs == [] then None
    else if AnchorOf(ovs[0].body) == Some(t) then Some(ovs[0])
    else FindByAnchor(ovs[1..], t)
  }

  lemma {:induction false} KeepRidsIsFilter(ovs: seq<Override>, cut: Cut)
    ensures forall o :: o in KeepRids(ovs, cut) <==> o in ovs && Keeps(cut, o.rid)
  {
    if ovs != [] {
      KeepRidsIsFilter(ovs[..|ovs| - 1], cut);
      assert ovs == ovs[..|ovs| - 1] + [ovs[|ovs| - 1]];
    }
  }

  lemma KeepRidsStep(ovs: seq<Override>, cut: Cut, i: nat)
    requires i < |ovs|
    ensures KeepRids(ovs[..i + 1], cut) == KeepRids(ovs[..i], cut) + if Keeps(cut, ovs[i].rid) then [ovs[i]] else []
  {
    assert ovs[..i + 1][..i] == ovs[..i];
  }

  /** The list while overrides are being popped: the first `i` are decided. */
  ghost function Popping(ovs: seq<Override>, cut: Cut, i: nat): seq<Override>
    requires i <= |ovs|
  {
    KeepRids(ovs[..i], cut) + ovs[i..]
  }

  lemma PoppingStep(ovs: seq<Override>, cut: Cut, i: nat)
    requires i < |ovs|
    ensures Popping(ovs, cut, i + 1)
         == if Keeps(cut, ovs[i].rid) then Popping(ovs, cut, i) else RemoveFirst(Popping(ovs, cut, i), ovs[i])
  {
    var front := KeepRids(ovs[..i], cut);
    KeepRidsStep(ovs, cut, i);
    assert Popping(ovs, cut, i) == front + [ovs[i]] + ovs[i + 1..];
    if !Keeps(cut, ovs[i].rid) {
      KeepRidsIsFilter(ovs[..i], cut);
      RemoveFirstAt(front, ovs[i], ovs[i + 1..]);
    }
  }

  // ----- Which occurrence a request means -----

  /** `_resolve_pivot`: a RECURRENCE-ID of an override stands for itself; failing that, the current
      anchor of an override stands for the override's RECURRENCE-ID; anything else for itself. */
  function Resolve(s: Series, x: int): int {
    if Find(s.overrides, x).Some? then x
    else match FindByAnchor(s.overrides, x)
      case Some(o) => o.rid
      case None => x
  }

  // ----- Edits of one component -----

  /** `_shift_override` as every edit calls it: the override is rebound and keeps its own span. */
  function Rebound(o: Override, d: int, newUid: Option<string>): Override {
    Override(o.rid + d, if newUid.Some? then o.body.(uid := newUid.value) else o.body)
  }

  function Plus(t: Option<int>, d: int): Option<int> {
    if t.Some? then Some(t.value + d) else None
  }

  function ReboundAll(ovs: seq<Override>, d: int, newUid: Option<string>): (moved: seq<Override>)
    ensures |moved| == |ovs|
    ensures forall i | 0 <= i < |ovs| :: moved[i] == Rebound(ovs[i], d, newUid)
  {
    seq(|ovs|, i requires 0 <= i < |ovs| => Rebound(ovs[i], d, newUid))
  }

  /** `_reset_override`: the chosen fields go back to the series values; time goes back to the
      RECURRENCE-ID with the length of the span `start`..`end`. */
  function ResetTo(o: Override, e: Edit, start: Option<int>, end: Option<int>): Override {
    var b := o.body;
    var timed :=
      if Time in e.reset then
        b.(start := Some(o.rid),
           end := if start.Some? && end.Some? then Some(o.rid + (end.value - start.value)) else None)
      else b;
    var texts := timed.(
      title := if Title in e.reset then e.title else b.title,
      location := if Location in e.reset then e.location else b.location,
      description := if Description in e.reset then e.description else b.description,
      priority := if Priority in e.reset then PriorityAfter(e, b.priority) else b.priority);
    Override(o.rid,
      if Alerts in e.reset then texts.(subs := Applied(texts.subs, e.reminders, HasEnd(texts))) else texts)
  }

  function ResetAll(ovs: seq<Override>, e: Edit, start: Option<int>, end: Option<int>): (rs: seq<Override>)
    ensures |rs| == |ovs|
    ensures forall i | 0 <= i < |ovs| :: rs[i] == ResetTo(ovs[i], e, start, end)
  {
    seq(|ovs|, i requires 0 <= i < |ovs| => ResetTo(ovs[i], e, start, end))
  }

  function MaybeReset(ovs: seq<Override>, e: Edit, start: Option<int>, end: Option<int>): seq<Override> {
    if e.reset == {} then ovs else ResetAll(ovs, e, start, end)
  }

  /** `_set_priority`, on a component that had the priority `before`. */
  function PriorityAfter(e: Edit, before: Option<int>): Option<int> {
    if e.priority.SetTo? then e.priority.value else before
  }

  /** `_apply_fields`, `_apply_alarms` and `_set_priority` on the master. */
  function WithFields(b: Body, e: Edit, start: Option<int>, end: Option<int>): Body {
    b.(start := start, end := end, duration := None,
       title := e.title, location := e.location, description := e.description,
       priority := PriorityAfter(e, b.priority), subs := Applied(b.subs, e.reminders, end.Some?))
  }

  /** The component `_upsert_override` builds, which has no priority. */
  function Detached(s: Series, p: int, e: Edit, progress: Progress): Override {
    Override(p, Body(s.master.body.uid, e.start, e.end, None, e.title, e.location, e.description,
                     progress, None, Applied([], e.reminders, e.end.Some?)))
  }

  // ----- Edits of a resource -----

  /** Rewrite the master with a new span and rule, and rebind everything that refers to its slots. */
  function Rewritten(s: Series, e: Edit, d: int, start: Option<int>, end: Option<int>, rule: Option<Rule>): Series {
    Series(
      Master(WithFields(s.master.body, e, start, end), s.master.allDay, rule, ShiftTimes(s.master.exdates, d)),
      MaybeReset(ReboundAll(s.overrides, d, None), e, start, end))
  }

  function WithOverride(s: Series, o: Override): Series {
    s.(overrides := KeepRids(s.overrides, NotAt(o.rid)) + [o])
  }

  function WithoutOverrideAt(s: Series, p: int): Series {
    s.(overrides := KeepRids(s.overrides, NotAt(p)))
  }

  /** The part of a split that stays: everything before the pivot. */
  function Head(s: Series, base: int, p: int): Series
    requires s.master.rule.Some?
  {
    var m := s.master;
    Series(
      m.(rule := Some(Truncated(base, m.rule.value, p, m.allDay)), exdates := KeepTimes(m.exdates, Below(p))),
      KeepRids(s.overrides, Below(p)))
  }

  function OnlyAlarms(subs: seq<Sub>): seq<Sub> {
    if subs == [] then []
    else
      var front := OnlyAlarms(subs[..|subs| - 1]);
      if subs[|subs| - 1].Valarm? then front + [subs[|subs| - 1]] else front
  }

  /** The series a split spins off: everything from the pivot on, moved by `d`. */
  function Tail(s: Series, e: Edit, p: int, d: int, rule: Rule, newUid: string, progress: Progress): Series {
    var m := s.master;
    var subs := Applied(OnlyAlarms(m.body.subs), e.reminders, e.end.Some?);
    Series(
      Master(Body(newUid, e.start, e.end, None, e.title, e.location, e.description, progress,
                  PriorityAfter(e, None), subs),
             m.allDay, Some(rule), ShiftTimes(KeepTimes(m.exdates, AtOrAfter(p)), d)),
      MaybeReset(ReboundAll(KeepRids(s.overrides, AtOrAfter(p)), d, Some(newUid)), e, e.start, e.end))
  }

  // ----- Edits of an event -----

  predicate IsEventEdit(e: Edit) {
    e.start.Some? && e.end.Some? && e.priority.Untouched?
  }

  predicate IsRecurringEvent(s: Series) {
    s.master.body.start.Some? && s.master.rule.Some?
  }

  /** Scope `all` without an occurrence to measure a move from. */
  function EventRewritten(s: Series, e: Edit): Series
    requires IsEventEdit(e)
  {
    Rewritten(s, e, 0, e.start, e.end, if e.rule.Some? then e.rule else s.master.rule)
  }

  /** Scope `all`: the master moves by as much as the edited occurrence did. */
  function EventAll(s: Series, e: Edit, p: int): Series
    requires IsEventEdit(e) && IsRecurringEvent(s)
  {
    var d := e.start.value - p;
    var start := s.master.body.start.value + d;
    Rewritten(s, e, d, Some(start), Some(start + (e.end.value - e.start.value)),
      Some(if e.rule.Some? then e.rule.value else ShiftedRule(s.master.rule.value, d)))
  }

  function EventThis(s: Series, e: Edit, p: int): Series {
    WithOverride(s, Detached(s, p, e, NO_PROGRESS))
  }

  /** Scope `thisfuture` at or before the first occurrence: the whole series is rewritten. */
  function EventFirst(s: Series, e: Edit, p: int): Series
    requires IsEventEdit(e) && IsRecurringEvent(s)
  {
    var base := s.master.body.start.value;
    var d := e.start.value - base;
    Rewritten(WithoutOverrideAt(s, p), e, d, e.start, e.end,
      Some(if e.rule.Some? then e.rule.value else ContinuedRule(base, s.master.rule.value, p, d)))
  }

  function EventTailRule(s: Series, e: Edit, p: int): Rule
    requires IsEventEdit(e) && IsRecurringEvent(s)
  {
    if e.rule.Some? then e.rule.value
    else ContinuedRule(s.master.body.start.value, s.master.rule.value, p, e.start.value - p)
  }

  function EventHead(s: Series, p: int): Series
    requires IsRecurringEvent(s)
  {
    Head(WithoutOverrideAt(s, p), s.master.body.start.value, p)
  }

  function EventTail(s: Series, e: Edit, p: int, newUid: string): Series
    requires IsEventEdit(e) && IsRecurringEvent(s)
  {
    Tail(WithoutOverrideAt(s, p), e, p, e.start.value - p, EventTailRule(s, e, p), newUid, NO_PROGRESS)
  }

  // ----- Deletions -----

  function DeletedThis(s: Series, p: int): Series {
    s.(master := s.master.(exdates := s.master.exdates + [p]))
  }

  /** Unlike a split, a deletion leaves the EXDATEs alone. */
  function DeletedFuture(s: Series, base: int, p: int): Series
    requires s.master.rule.Some?
  {
    var m := s.master;
    Series(m.(rule := Some(Truncated(base, m.rule.value, p, m.allDay))), KeepRids(s.overrides, Below(p)))
  }

  // ----- The same edits made in place -----

  /** A parsed resource, edited in place before it is saved. */
  class Ical {
    var master: Master
    var overrides: seq<Override>

    constructor (s: Series)
      ensures Value() == s
    {
      master, overrides := s.master, s.overrides;
    }

    function Value(): Series
      reads this
    {
      Series(master, overrides)
    }

    method ResolvePivot(x: int) returns (p: int)
      ensures p == Resolve(Value(), x)
    {
      for i := 0 to |overrides|
        invariant Find(overrides, x) == Find(overrides[i..], x)
      {
        if overrides[i].rid == x {
          return x;
        }
      }
      for i := 0 to |overrides|
        invariant FindByAnchor(overrides, x) == FindByAnchor(overrides[i..], x)
      {
        if AnchorOf(overrides[i].body) == Some(x) {
          return overrides[i].rid;
        }
      }
      return x;
    }

    /** `_pop_overrides`: detach the overrides `keep` rejects, in document order. */
    method PopOverrides(keep: Cut) returns (removed: seq<Override>)
      modifies this
      ensures Value() == old(Value()).(overrides := KeepRids(old(overrides), keep))
      ensures removed == KeepRids(old(overrides), Opposite(keep))
    {
      overrides, removed := PopEach(overrides, keep);
    }

    static method PopEach(all: seq<Override>, keep: Cut) returns (left: seq<Override>, removed: seq<Override>)
      ensures left == KeepRids(all, keep)
      ensures removed == KeepRids(all, Opposite(keep))
    {
      left, removed := all, [];
      for i := 0 to |all|
        invariant left == Popping(all, keep, i)
        invariant removed == KeepRids(all[..i], Opposite(keep))
      {
        PoppingStep(all, keep, i);
        KeepRidsStep(all, Opposite(keep), i);
        if !Keeps(keep, all[i].rid) {
          left := RemoveFirst(left, all[i]);
          removed := removed + [all[i]];
        }
      }
      assert all[..|all|] == all;
    }

    /** Rebind each override of a list in turn, leaving its own time where it is. */
    static method ShiftEach(ovs: seq<Override>, d: int, newUid: Option<string>) returns (moved: seq<Override>)
      ensures moved == ReboundAll(ovs, d, newUid)
    {
      moved := ovs;
      for i := 0 to |ovs|
        invariant |moved| == |ovs|
        invariant forall j | 0 <= j < i :: moved[j] == Rebound(ovs[j], d, newUid)
        invariant forall j | i <= j < |ovs| :: moved[j] == ovs[j]
      {
        moved := moved[i := Rebound(moved[i], d, newUid)];
      }
    }

    static method ResetEach(ovs: seq<Override>, e: Edit, start: Option<int>, end: Option<int>)
      returns (rs: seq<Override>)
      ensures rs == MaybeReset(ovs, e, start, end)
    {
      rs := ovs;
      if e.reset == {} {
        return;
      }
      for i := 0 to |ovs|
        invariant |rs| == |ovs|
        invariant forall j | 0 <= j < i :: rs[j] == ResetTo(ovs[j], e, start, end)
        invariant forall j | i <= j < |ovs| :: rs[j] == ovs[j]
      {
        rs := rs[i := ResetTo(rs[i], e, start, end)];
      }
    }

    /** `_upsert_override`. */
    method Upsert(o: Override)
      modifies this
      ensures Value() == WithOverride(old(Value()), o)
    {
      var dropped := PopOverrides(NotAt(o.rid));
      overrides := overrides + [o];
    }

    method ShiftExdate(d: int)
      modifies this`master
      ensures master == old(master).(exdates := ShiftTimes(old(master).exdates, d))
    {
      if d == 0 {
        assert ShiftTimes(master.exdates, 0) == master.exdates;
        return;
      }
      var moved := [];
      for i := 0 to |master.exdates|
        invariant moved == ShiftTimes(master.exdates, d)[..i]
      {
        moved := moved + [master.exdates[i] + d];
      }
      master := master.(exdates := moved);
    }

    /** `_truncate_until`. */
    method TruncateUntil(base: int, p: int)
      requires master.rule.Some?
      modifies this`master
      ensures master == old(master).(rule := Some(Truncated(base, old(master).rule.value, p, master.allDay)))
    {
      var last := SlotBefore(base, master.rule.value, p);
      var until;
      if last.At? {
        until := last.t;
      } else if master.allDay {
        until := p - DAY;
      } else {
        until := p - 1;
      }
      master := master.(rule := Some(master.rule.value.(bound := Until(until))));
    }

    /** `_remaining_rule_parts`. */
    method RemainingParts(base: int, p: int) returns (rule: Rule)
      requires master.rule.Some?
      ensures rule == RemainingRule(base, master.rule.value, p)
    {
      rule := master.rule.value;
      if rule.bound.Count? {
        var through := CountThrough(base, rule, p);
        var before: int := through;
        before := before - 1;
        var left: int := rule.bound.n - before;
        rule := rule.(bound := Count(if left < 1 then 1 else left));
      }
    }

    /** `_set_exdates` on the points before the pivot; the rest, moved, go to the spun-off series. */
    method SplitExdates(p: int, d: int) returns (later: seq<int>)
      modifies this`master
      ensures master == old(master).(exdates := KeepTimes(old(master).exdates, Below(p)))
      ensures later == ShiftTimes(KeepTimes(old(master).exdates, AtOrAfter(p)), d)
    {
      var ex := master.exdates;
      var kept: seq<int> := [];
      later := [];
      for i := 0 to |ex|
        invariant kept == KeepTimes(ex[..i], Below(p))
        invariant later == ShiftTimes(KeepTimes(ex[..i], AtOrAfter(p)), d)
      {
        assert ex[..i + 1][..i] == ex[..i];
        if ex[i] < p {
          kept := kept + [ex[i]];
        } else {
          later := later + [ex[i] + d];
        }
      }
      assert ex[..|ex|] == ex;
      master := master.(exdates := kept);
    }

    /** `_apply_fields`, `_apply_alarms` and, for a task, `_set_priority`. */
    method ApplyFields(e: Edit, start: Option<int>, end: Option<int>)
      modifies this`master
      ensures master == old(master).(body := WithFields(old(master).body, e, start, end))
    {
      var b := master.body.(start := start, end := end, duration := None,
                            title := e.title, location := e.location, description := e.description);
      var subs := Apply(b.subs, e.reminders, HasEnd(b));
      master := master.(body := b.(subs := subs));
      if e.priority.SetTo? {
        master := master.(body := master.body.(priority := e.priority.value));
      }
    }

    /** Rebind overrides and EXDATEs, rewrite the master, then reset what was asked for. */
    method Rewrite(e: Edit, d: int, start: Option<int>, end: Option<int>, rule: Option<Rule>)
      modifies this
      ensures Value() == Rewritten(old(Value()), e, d, start, end, rule)
    {
      overrides := ShiftEach(overrides, d, None);
      ShiftExdate(d);
      ApplyFields(e, start, end);
      master := master.(rule := rule);
      overrides := ResetEach(overrides, e, start, end);
    }

    /** Cap this resource before the pivot and return the series that continues it. */
    method Split(e: Edit, base: int, p: int, d: int, rule: Rule, newUid: string, progress: Progress)
      returns (spun: Series)
      requires master.rule.Some?
      modifies this
      ensures Value() == Head(old(Value()), base, p)
      ensures spun == Tail(old(Value()), e, p, d, rule, newUid, progress)
    {
      var migrated := PopOverrides(Below(p));
      migrated := ShiftEach(migrated, d, Some(newUid));
      migrated := ResetEach(migrated, e, e.start, e.end);
      var later := SplitExdates(p, d);
      TruncateUntil(base, p);
      var carried := [];
      var subs := master.body.subs;
      for i := 0 to |subs|
        invariant carried == OnlyAlarms(subs[..i])
      {
        assert subs[..i + 1][..i] == subs[..i];
        if subs[i].Valarm? {
          carried := carried + [subs[i]];
        }
      }
      assert subs[..|subs|] == subs;
      carried := Apply(carried, e.reminders, e.end.Some?);
      spun := Series(
        Master(Body(newUid, e.start, e.end, None, e.title, e.location, e.description, progress, PriorityAfter(e, None),
                    carried),
               master.allDay, Some(rule), later),
        migrated);
    }

    // ----- Scopes of an event edit -----

    method EditEventAll(e: Edit, recurrenceId: Option<int>)
      requires IsEventEdit(e) && (master.rule.Some? && recurrenceId.Some? ==> master.body.start.Some?)
      modifies this
      ensures Value() == if old(master).rule.Some? && recurrenceId.Some?
        then EventAll(old(Value()), e, Resolve(old(Value()), recurrenceId.value))
        else EventRewritten(old(Value()), e)
    {
      if master.rule.Some? && recurrenceId.Some? {
        var p := ResolvePivot(recurrenceId.value);
        var d := e.start.value - p;
        var start := master.body.start.value + d;
        var end := start + (e.end.value - e.start.value);
        var rule := if e.rule.Some? then e.rule.value else ShiftedRule(master.rule.value, d);
        Rewrite(e, d, Some(start), Some(end), Some(rule));
      } else {
        Rewrite(e, 0, e.start, e.end, if e.rule.Some? then e.rule else master.rule);
      }
    }

    method EditEventThis(e: Edit, p: int)
      modifies this
      ensures Value() == EventThis(old(Value()), e, p)
    {
      var subs := Apply([], e.reminders, e.end.Some?);
      Upsert(Override(p, Body(master.body.uid, e.start, e.end, None, e.title, e.location, e.description,
                              NO_PROGRESS, None, subs)));
    }

    method EditEventThisFuture(e: Edit, p: int, newUid: string) returns (spun: Option<Series>)
      requires IsEventEdit(e) && IsRecurringEvent(Value())
      modifies this
      ensures var s := old(Value());
        if p <= s.master.body.start.value then
          Value() == EventFirst(s, e, p) && spun == None
        else
          Value() == EventHead(s, p) && spun == Some(EventTail(s, e, p, newUid))
    {
      var dropped := PopOverrides(NotAt(p));
      var base := master.body.start.value;
      var rule := RemainingParts(base, p);
      if e.rule.Some? {
        rule := e.rule.value;
      }
      if p <= base {
        if e.rule.None? {
          rule := ShiftedRule(rule, e.start.value - base);
        }
        Rewrite(e, e.start.value - base, e.start, e.end, Some(rule));
        spun := None;
      } else {
        if e.rule.None? {
          rule := ShiftedRule(rule, e.start.value - p);
        }
        var tail := Split(e, base, p, e.start.value - p, rule, newUid, NO_PROGRESS);
        spun := Some(tail);
      }
    }
  }
}
