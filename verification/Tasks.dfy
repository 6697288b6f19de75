/** Recurring tasks: completing occurrences one by one, and the scoped edits, which differ from
    those of events in how they anchor and in carrying completion over. */
module Tasks {
  import opened Lists
  import opened Ascii
  import opened Recurrence
  import opened Alarms
  import opened CalendarObject
  import opened Store

  // ----- Completion -----

  /** `_task_completed`. */
  predicate IsDone(p: Progress) {
    || Upper(p.status) == "COMPLETED"
    || p.completed.Some?
    || (p.percent.Some? && 100 <= p.percent.value)
  }

  /** `_set_status`. */
  function ProgressOf(done: bool, now: int): Progress {
    if done then Progress("COMPLETED", Some(now), Some(100)) else Progress("NEEDS-ACTION", None, Some(0))
  }

  datatype Span = Span(start: Option<int>, due: Option<int>)

  function SpanOf(b: Body): Span {
    Span(b.start, b.end)
  }

  /** `_occurrence_span`: the master's start and due, moved to the slot. */
  function OccurrenceSpan(s: Series, p: int): Span
    requires AnchorOf(s.master.body).Some?
  {
    var b := s.master.body;
    var d := p - AnchorOf(b).value;
    Span(Plus(b.start, d), Plus(b.end, d))
  }

  /** Replace the first override with RECURRENCE-ID `o.rid`. */
  function ReplaceFirst(ovs: seq<Override>, o: Override): seq<Override> {
    if ovs == [] then []
    else if ovs[0].rid == o.rid then [o] + ovs[1..]
    else [ovs[0]] + ReplaceFirst(ovs[1..], o)
  }

  function FreshlyDone(s: Series, p: int, now: int): Override
    requires AnchorOf(s.master.body).Some?
  {
    var span := OccurrenceSpan(s, p);
    var e := Edit(s.master.body.title, "", "", span.start, span.due, None, None, Untouched, {});
    Detached(s, p, e, ProgressOf(true, now))
  }

  /** `_sync_set_task_status` on one occurrence: an override is marked in place, except that
      un-completing one that was never moved drops it; completing a plain occurrence detaches it. */
  function StatusSet(s: Series, p: int, done: bool, now: int): Series
    requires AnchorOf(s.master.body).Some?
  {
    match Find(s.overrides, p)
    case Some(o) =>
      if !done && SpanOf(o.body) == OccurrenceSpan(s, p) then s.(overrides := RemoveFirst(s.overrides, o))
      else s.(overrides := ReplaceFirst(s.overrides, o.(body := o.body.(progress := ProgressOf(done, now)))))
    case None =>
      if done then WithOverride(s, FreshlyDone(s, p, now)) else s
  }

  function MasterStatusSet(s: Series, done: bool, now: int): Series {
    s.(master := s.master.(body := s.master.body.(progress := ProgressOf(done, now))))
  }

  // ----- Scoped edits -----

  predicate IsTaskEdit(e: Edit) {
    e.priority.SetTo?
  }

  /** The edited value of the property the series is anchored on. */
  function EditedAnchor(s: Series, e: Edit): Option<int> {
    if s.master.body.start.Some? then e.start else e.end
  }

  function TaskRewritten(s: Series, e: Edit): Series {
    Rewritten(s, e, 0, e.start, e.end,
      if e.rule.Some? && (e.start.Some? || e.end.Some?) then e.rule else s.master.rule)
  }

  function TaskDelta(s: Series, e: Edit, p: int): int {
    if EditedAnchor(s, e).Some? then EditedAnchor(s, e).value - p else 0
  }

  /** Scope `all`: start and due of the master both move by what the anchor moved. */
  function TaskAll(s: Series, e: Edit, p: int): Series
    requires s.master.rule.Some?
  {
    var d := TaskDelta(s, e, p);
    var start, due := Plus(s.master.body.start, d), Plus(s.master.body.end, d);
    Rewritten(s, e, d, start, due,
      Some(if e.rule.Some? && (start.Some? || due.Some?) then e.rule.value else ShiftedRule(s.master.rule.value, d)))
  }

  /** The progress a `this` edit carries over from an override that was done. */
  function CarriedProgress(s: Series, p: int, now: int): Progress {
    match Find(s.overrides, p)
    case Some(o) =>
      if IsDone(o.body.progress)
      then
        var completed := o.body.progress.completed;
        Progress("COMPLETED", Some(if completed.Some? then completed.value else now), Some(100))
      else NO_PROGRESS
    case None => NO_PROGRESS
  }

  function TaskThis(s: Series, e: Edit, p: int, now: int): Series {
    WithOverride(s, Detached(s, p, e, CarriedProgress(s, p, now)))
  }

  function TaskAnchor(s: Series, e: Edit, p: int): int {
    if EditedAnchor(s, e).Some? then EditedAnchor(s, e).value else p
  }

  function TaskFutureRule(s: Series, e: Edit, p: int, d: int): Rule
    requires s.master.rule.Some? && AnchorOf(s.master.body).Some?
  {
    if e.rule.Some? then e.rule.value
    else ContinuedRule(AnchorOf(s.master.body).value, s.master.rule.value, p, d)
  }

  function TaskFirst(s: Series, e: Edit, p: int): Series
    requires s.master.rule.Some? && AnchorOf(s.master.body).Some?
  {
    var d := TaskAnchor(s, e, p) - AnchorOf(s.master.body).value;
    Rewritten(WithoutOverrideAt(s, p), e, d, e.start, e.end, Some(TaskFutureRule(s, e, p, d)))
  }

  function TaskHead(s: Series, p: int): Series
    requires s.master.rule.Some? && AnchorOf(s.master.body).Some?
  {
    Head(WithoutOverrideAt(s, p), AnchorOf(s.master.body).value, p)
  }

  const NEW_TASK := Progress("NEEDS-ACTION", None, None)

  function TaskTail(s: Series, e: Edit, p: int, newUid: string): Series
    requires s.master.rule.Some? && AnchorOf(s.master.body).Some?
  {
    var d := TaskAnchor(s, e, p) - p;
    Tail(WithoutOverrideAt(s, p), e, p, d, TaskFutureRule(s, e, p, d), newUid, NEW_TASK)
  }

  function TaskUpdated(m: Resources, uid: string, e: Edit, scope: Scope, recurrenceId: Option<int>,
                       newUid: string, now: int): Answer
    requires IsTaskEdit(e)
  {
    if uid !in m then Answer(m, NotFound)
    else
      var s := m[uid];
      if s.master.rule.None? || recurrenceId.None? then Answer(m[uid := TaskRewritten(s, e)], Ok)
      else if AnchorOf(s.master.body).None? then Answer(m, MissingAnchor)
      else
        var p := Resolve(s, recurrenceId.value);
        match scope
        case OtherScope(_) => Answer(m, UnknownScope)
        case This => Answer(m[uid := TaskThis(s, e, p, now)], Ok)
        case All => Answer(m[uid := TaskAll(s, e, p)], Ok)
        case ThisFuture =>
          if p <= AnchorOf(s.master.body).value then Answer(m[uid := TaskFirst(s, e, p)], Ok)
          else Answer(m[uid := TaskHead(s, p)][newUid := TaskTail(s, e, p, newUid)], Ok)
  }

  function StatusUpdated(m: Resources, uid: string, done: bool, recurrenceId: Option<int>, now: int): Answer {
    if uid !in m then Answer(m, NotFound)
    else
      var s := m[uid];
      if s.master.rule.None? || recurrenceId.None? then Answer(m[uid := MasterStatusSet(s, done, now)], Ok)
      else if AnchorOf(s.master.body).None? then Answer(m, MissingAnchor)
      else Answer(m[uid := StatusSet(s, Resolve(s, recurrenceId.value), done, now)], Ok)
  }

  lemma {:induction false} ReplaceFirstAt(front: seq<Override>, old': Override, back: seq<Override>, o: Override)
    requires old'.rid == o.rid && forall x | x in front :: x.rid != o.rid
    ensures ReplaceFirst(front + [old'] + back, o) == front + [o] + back
  {
    var all := front + [old'] + back;
    if front == [] {
      assert all[1..] == back;
    } else {
      ReplaceFirstAt(front[1..], old', back, o);
      assert all[1..] == front[1..] + [old'] + back;
      assert [front[0]] + (front[1..] + [o] + back) == front + [o] + back;
    }
  }

  // ----- The requests -----

  class TaskCalendar {
    var resources: Resources

    constructor ()
      ensures resources == map[]
    {
      resources := map[];
    }

    /** The index of the first override with this RECURRENCE-ID, or the number of overrides. */
    static method IndexOf(ovs: seq<Override>, p: int) returns (i: nat)
      ensures i <= |ovs|
      ensures forall j | 0 <= j < i :: ovs[j].rid != p
      ensures if i < |ovs| then ovs[i].rid == p && Find(ovs, p) == Some(ovs[i]) else Find(ovs, p) == None
    {
      i := 0;
      while i < |ovs| && ovs[i].rid != p
        invariant i <= |ovs|
        invariant forall j | 0 <= j < i :: ovs[j].rid != p
        invariant Find(ovs, p) == Find(ovs[i..], p)
      {
        i := i + 1;
      }
    }

    /** `_sync_set_task_status`. */
    method SetTaskStatus(uid: string, done: bool, recurrenceId: Option<int>, now: int) returns (outcome: Outcome)
      modifies this
      ensures Answer(resources, outcome) == StatusUpdated(old(resources), uid, done, recurrenceId, now)
    {
      if uid !in resources {
        return NotFound;
      }
      var ical := new Ical(resources[uid]);
      if ical.master.rule.None? || recurrenceId.None? {
        ical.master := ical.master.(body := ical.master.body.(progress := ProgressOf(done, now)));
        resources := resources[uid := ical.Value()];
        return Ok;
      }
      if AnchorOf(ical.master.body).None? {
        return MissingAnchor;
      }
      var p := ical.ResolvePivot(recurrenceId.value);
      MarkOccurrence(ical, p, done, now);
      resources := resources[uid := ical.Value()];
      return Ok;
    }

    static method MarkOccurrence(ical: Ical, p: int, done: bool, now: int)
      requires AnchorOf(ical.master.body).Some?
      modifies ical
      ensures ical.Value() == StatusSet(old(ical.Value()), p, done, now)
    {
      var span := OccurrenceSpan(ical.Value(), p);
      var ovs := ical.overrides;
      var i := IndexOf(ovs, p);
      if i < |ovs| {
        var existing := ovs[i];
        var moved := existing.body.start != span.start || existing.body.end != span.due;
        if !done && !moved {
          ical.overrides := RemoveFirst(ovs, existing);
        } else {
          var marked := existing.(body := existing.body.(progress := ProgressOf(done, now)));
          ical.overrides := ovs[i := marked];
          ReplaceFirstAt(ovs[..i], existing, ovs[i + 1..], marked);
          assert ovs == ovs[..i] + [existing] + ovs[i + 1..];
          assert ical.overrides == ovs[..i] + [marked] + ovs[i + 1..];
        }
      } else if done {
        var subs := Apply([], None, span.due.Some?);
        ical.Upsert(Override(p, Body(ical.master.body.uid, span.start, span.due, None, ical.master.body.title, "", "",
                                     ProgressOf(true, now), None, subs)));
      }
    }

    /** `_sync_update_task`. */
    method UpdateTask(uid: string, e: Edit, scope: Scope, recurrenceId: Option<int>, newUid: string, now: int)
      returns (outcome: Outcome)
      requires IsTaskEdit(e) && newUid !in resources
      modifies this
      ensures Answer(resources, outcome) == TaskUpdated(old(resources), uid, e, scope, recurrenceId, newUid, now)
    {
      if uid !in resources {
        return NotFound;
      }
      var ical := new Ical(resources[uid]);
      ghost var s := ical.Value();
      if ical.master.rule.None? || recurrenceId.None? {
        ical.Rewrite(e, 0, e.start, e.end,
          if e.rule.Some? && (e.start.Some? || e.end.Some?) then e.rule else ical.master.rule);
        resources := resources[uid := ical.Value()];
        return Ok;
      }
      if AnchorOf(ical.master.body).None? {
        return MissingAnchor;
      }
      var p := ical.ResolvePivot(recurrenceId.value);
      match scope {
        case All =>
          MoveTask(ical, e, p);
        case This =>
          DetachTask(ical, e, p, now);
        case ThisFuture =>
          var spun := TaskFuture(ical, e, p, newUid);
          resources := resources[uid := ical.Value()];
          if spun.Some? {
            resources := resources[newUid := spun.value];
          }
          return Ok;
        case OtherScope(_) =>
          return UnknownScope;
      }
      resources := resources[uid := ical.Value()];
      return Ok;
    }

    static method MoveTask(ical: Ical, e: Edit, p: int)
      requires ical.master.rule.Some?
      modifies ical
      ensures ical.Value() == TaskAll(old(ical.Value()), e, p)
    {
      var edited := if ical.master.body.start.Some? then e.start else e.end;
      var d := if edited.Some? then edited.value - p else 0;
      var start, due := Plus(ical.master.body.start, d), Plus(ical.master.body.end, d);
      var rule := ShiftedRule(ical.master.rule.value, d);
      if e.rule.Some? && (start.Some? || due.Some?) {
        rule := e.rule.value;
      }
      ical.Rewrite(e, d, start, due, Some(rule));
    }

    /** Scope `this`: the occurrence is rebuilt, but one that was done stays done. */
    static method DetachTask(ical: Ical, e: Edit, p: int, now: int)
      modifies ical
      ensures ical.Value() == TaskThis(old(ical.Value()), e, p, now)
    {
      var progress := NO_PROGRESS;
      var i := IndexOf(ical.overrides, p);
      if i < |ical.overrides| && IsDone(ical.overrides[i].body.progress) {
        var completed := ical.overrides[i].body.progress.completed;
        progress := Progress("COMPLETED", Some(if completed.Some? then completed.value else now), Some(100));
      }
      var subs := Apply([], e.reminders, e.end.Some?);
      ical.Upsert(Override(p, Body(ical.master.body.uid, e.start, e.end, None, e.title, e.location, e.description,
                                   progress, None, subs)));
    }

    static method TaskFuture(ical: Ical, e: Edit, p: int, newUid: string) returns (spun: Option<Series>)
      requires ical.master.rule.Some? && AnchorOf(ical.master.body).Some?
      modifies ical
      ensures var s := old(ical.Value());
        if p <= AnchorOf(s.master.body).value then
          ical.Value() == TaskFirst(s, e, p) && spun == None
        else
          ical.Value() == TaskHead(s, p) && spun == Some(TaskTail(s, e, p, newUid))
    {
      var dropped := ical.PopOverrides(NotAt(p));
      var base := AnchorOf(ical.master.body).value;
      var edited := if ical.master.body.start.Some? then e.start else e.end;
      var anchor := if edited.Some? then edited.value else p;
      var rule := ical.RemainingParts(base, p);
      if e.rule.Some? {
        rule := e.rule.value;
      }
      if p <= base {
        if e.rule.None? {
          rule := ShiftedRule(rule, anchor - base);
        }
        ical.Rewrite(e, anchor - base, e.start, e.end, Some(rule));
        spun := None;
      } else {
        if e.rule.None? {
          rule := ShiftedRule(rule, anchor - p);
        }
        var tail := ical.Split(e, base, p, anchor - p, rule, newUid, NEW_TASK);
        spun := Some(tail);
      }
    }

    /** `_sync_delete_task`. */
    method DeleteTask(uid: string, scope: Scope, recurrenceId: Option<int>) returns (outcome: Outcome)
      modifies this
      ensures Answer(resources, outcome) == Deleted(old(resources), Todo, uid, scope, recurrenceId)
    {
      if uid !in resources {
        return NotFound;
      }
      var ical := new Ical(resources[uid]);
      if scope.All? || ical.master.rule.None? || recurrenceId.None? {
        resources := resources - {uid};
        return Ok;
      }
      var anchor := AnchorOf(ical.master.body);
      if anchor.None? {
        return MissingAnchor;
      }
      var p, base := recurrenceId.value, anchor.value;
      if scope.This? {
        ical.master := ical.master.(exdates := ical.master.exdates + [p]);
      } else if scope.ThisFuture? {
        if p <= base {
          resources := resources - {uid};
          return Ok;
        }
        ical.TruncateUntil(base, p);
        var orphans := ical.PopOverrides(Below(p));
      } else {
        resources := resources - {uid};
        return Ok;
      }
      resources := resources[uid := ical.Value()];
      return Ok;
    }
  }
}
