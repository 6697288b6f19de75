/** What whole requests do to the store: which outcome they have and why, what they leave alone, and what they
    make of the resource they are for. */
module RequestLaws {
  import opened Lists
  import opened Ascii
  import opened Recurrence
  import opened CalendarObject
  import opened Expansion
  import opened EditEffects
  import opened EventLaws
  import opened Store
  import opened Tasks
  import opened TaskLaws

  /** Only an occurrence of a recurring item can be meant by itself. */
  predicate NamesOccurrence(s: Series, recurrenceId: Option<int>) {
    s.master.rule.Some? && recurrenceId.Some?
  }

  /** The rule in force after an edit that names no occurrence. */
  function RuleInForce(s: Series, e: Edit): Option<Rule> {
    if e.rule.Some? then e.rule else s.master.rule
  }

  /** A request changes no resource but the one it is for and the one it spins off. */
  predicate LeavesOthers(m: Resources, uid: string, newUid: string, m': Resources) {
    && m.Keys <= m'.Keys <= m.Keys + {newUid}
    && forall u | u in m && u != uid :: m'[u] == m[u]
  }

  // ----- Updates of events -----

  /** Why an update of an event is refused, and when it spins off a series; a refused one changes nothing. */
  lemma UpdateOutcomes(m: Resources, uid: string, e: Edit, scope: Scope, recurrenceId: Option<int>, newUid: string)
    requires IsEventEdit(e) && newUid !in m
    ensures var a := Updated(m, uid, e, scope, recurrenceId, newUid);
      && (a.outcome.NotFound? <==> uid !in m)
      && (a.outcome.UnknownScope? <==>
            uid in m && NamesOccurrence(m[uid], recurrenceId)
            && scope.OtherScope? && AnchorOf(m[uid].master.body).Some?)
      && (a.outcome.MissingAnchor? <==>
            uid in m && NamesOccurrence(m[uid], recurrenceId)
            && if scope.This? || scope.OtherScope? then AnchorOf(m[uid].master.body).None?
               else m[uid].master.body.start.None?)
      && (!a.outcome.Ok? ==> a.resources == m)
      && (a.outcome.Ok? ==> LeavesOthers(m, uid, newUid, a.resources))
      && (newUid in a.resources <==>
            a.outcome.Ok? && NamesOccurrence(m[uid], recurrenceId) && scope.ThisFuture?
            && m[uid].master.body.start.value < Resolve(m[uid], recurrenceId.value))
  {
  }

  /** What such an edit makes of slot `t`: everything takes the edit, and nothing is rebound. */
  ghost predicate TakenWhole(s: Series, e: Edit, rule: Option<Rule>, t: int, s': Series) {
    && MasterTakes(s.master, e, s'.master)
    && s'.master.body.start == e.start && s'.master.body.end == e.end && s'.master.rule == rule
    && (HasSlot(s', t) <==> rule.Some? && NewAnchor(e).Some? && OnGrid(NewAnchor(e).value, rule.value, t))
    && (Excluded(s', t) <==> Excluded(s, t))
    && CarriedAt(s, t, true, e, 0, None, e.start, e.end, s')
  }

  lemma RewritingWholeTakes(s: Series, e: Edit, rule: Option<Rule>, t: int)
    ensures TakenWhole(s, e, rule, t, Rewritten(s, e, 0, e.start, e.end, rule))
  {
    RewritingTakes(s, e, 0, e.start, e.end, rule, t);
    WholeSlots(s, e, rule, t);
    assert t + 0 == t;
  }

  lemma WholeSlots(s: Series, e: Edit, rule: Option<Rule>, t: int)
    ensures HasSlot(Rewritten(s, e, 0, e.start, e.end, rule), t)
        <==> rule.Some? && NewAnchor(e).Some? && OnGrid(NewAnchor(e).value, rule.value, t)
  {
    assert AnchorOf(Rewritten(s, e, 0, e.start, e.end, rule).master.body) == NewAnchor(e);
    if rule.Some? && NewAnchor(e).Some? {
      IsSlotClosedForm(NewAnchor(e).value, rule.value, t);
    }
  }

  /** An edit of a plain event, or of a series without naming an occurrence, is saved whatever its scope: the
      resource takes it and shows the requested span, on the grid of the rule in force, wherever no override
      stands. */
  lemma PlainUpdateTakes(m: Resources, uid: string, e: Edit, scope: Scope, recurrenceId: Option<int>,
                         newUid: string, t: int)
    requires IsEventEdit(e) && uid in m && !NamesOccurrence(m[uid], recurrenceId)
    ensures var a := Updated(m, uid, e, scope, recurrenceId, newUid);
      && a.outcome == Ok && uid in a.resources && a.resources - {uid} == m - {uid}
      && TakenWhole(m[uid], e, RuleInForce(m[uid], e), t, a.resources[uid])
      && (!Overridden(m[uid], t) ==> ShownAt(a.resources[uid], t) == ShownEdit(e, t, e.end.value - e.start.value))
  {
    PivotlessEditShowsRequest(m[uid], e, t);
    RewritingWholeTakes(m[uid], e, RuleInForce(m[uid], e), t);
  }

  /** A series that moved as a whole by `d` and starts at `start` now: its slots are the old ones moved, or the
      grid of a new rule. */
  ghost predicate TakenMoved(s: Series, e: Edit, d: int, start: Option<int>, end: Option<int>, t: int, s': Series)
    requires AnchorOf(s.master.body).Some?
  {
    && MasterTakes(s.master, e, s'.master)
    && s'.master.body.start == start && s'.master.body.end == end
    && (e.rule.None? ==> (HasSlot(s', t + d) <==> HasSlot(s, t)))
    && (e.rule.Some? ==> (HasSlot(s', t + d) <==> OnGrid(AnchorOf(s.master.body).value + d, e.rule.value, t + d)))
    && (Excluded(s', t + d) <==> Excluded(s, t))
    && CarriedAt(s, t, true, e, d, None, start, end, s')
  }

  lemma EventAllTakes(s: Series, e: Edit, p: int, t: int)
    requires IsEventEdit(e) && IsRecurringEvent(s)
    ensures var d := e.start.value - p;
      var start := s.master.body.start.value + d;
      TakenMoved(s, e, d, Some(start), Some(start + e.end.value - e.start.value), t, EventAll(s, e, p))
  {
    var d := e.start.value - p;
    var start := s.master.body.start.value + d;
    var rule := EventAll(s, e, p).master.rule;
    RewritingTakes(s, e, d, Some(start), Some(start + (e.end.value - e.start.value)), rule, t);
    EventAllSlots(s, e, p, t);
  }

  lemma EventAllSlots(s: Series, e: Edit, p: int, t: int)
    requires IsEventEdit(e) && IsRecurringEvent(s)
    ensures var s', d := EventAll(s, e, p), e.start.value - p;
      && (e.rule.None? ==> (HasSlot(s', t + d) <==> HasSlot(s, t)))
      && (e.rule.Some? ==> (HasSlot(s', t + d) <==> OnGrid(s.master.body.start.value + d, e.rule.value, t + d)))
  {
    if e.rule.None? {
      AllCommutesWithExpansion(s, e, p, t);
    } else {
      NewRuleShowsRequest(s, e, p, t);
    }
  }

  /** Scope `all` moves the master by what the named occurrence moved, and takes the edit everywhere. */
  lemma AllUpdateTakes(m: Resources, uid: string, e: Edit, x: int, newUid: string, t: int)
    requires IsEventEdit(e) && uid in m && IsRecurringEvent(m[uid])
    ensures var a := Updated(m, uid, e, All, Some(x), newUid);
      && a.outcome == Ok && uid in a.resources && a.resources - {uid} == m - {uid}
      && var d := e.start.value - Resolve(m[uid], x);
         var start := m[uid].master.body.start.value + d;
         TakenMoved(m[uid], e, d, Some(start), Some(start + e.end.value - e.start.value), t, a.resources[uid])
  {
    EventAllTakes(m[uid], e, Resolve(m[uid], x), t);
  }

  /** Scope `this` replaces the override of the named occurrence and leaves the rest. */
  lemma ThisUpdateTakes(m: Resources, uid: string, e: Edit, x: int, newUid: string, t: int)
    requires IsEventEdit(e) && uid in m && m[uid].master.rule.Some? && AnchorOf(m[uid].master.body).Some?
    ensures var a := Updated(m, uid, e, This, Some(x), newUid);
      && a.outcome == Ok && uid in a.resources && a.resources - {uid} == m - {uid}
      && var s, s', p := m[uid], a.resources[uid], Resolve(m[uid], x);
      && s'.master == s.master
      && Overridden(s', p) && StandsAlone(s, e, p, NO_PROGRESS, Find(s'.overrides, p).value)
      && (t != p ==> Find(s'.overrides, t) == Find(s.overrides, t))
  {
    DetachingTakes(m[uid], e, Resolve(m[uid], x), NO_PROGRESS, t);
  }

  /** The two parts of a resource cut at `p`: the one that stays, and the one that takes the edit, moved by
      `d`. */
  ghost predicate TakenSplit(s: Series, e: Edit, p: int, d: int, newUid: string, progress: Progress, t: int,
                             head: Series, tail: Series)
  {
    && KeepsBefore(s, p, t, head)
    && MasterStartsAnew(s.master, e, newUid, progress, tail.master)
    && SlotsSplit(s, e, p, d, t, head, tail)
    && (Excluded(tail, t + d) <==> Excluded(s, t) && p <= t)
    && CarriedAt(s, t, p < t, e, d, Some(newUid), e.start, e.end, tail)
  }

  /** The earlier slots stay; the others move, or make way for the grid of a new rule. */
  ghost predicate SlotsSplit(s: Series, e: Edit, p: int, d: int, t: int, head: Series, tail: Series) {
    && (HasSlot(s, p) ==> (HasSlot(head, t) <==> HasSlot(s, t) && t < p))
    && (HasSlot(s, p) && e.rule.None? && NewAnchor(e) == Some(p + d) ==>
          (HasSlot(tail, t + d) <==> HasSlot(s, t) && p <= t))
    && (e.rule.Some? ==>
          (HasSlot(tail, t + d) <==> NewAnchor(e).Some? && OnGrid(NewAnchor(e).value, e.rule.value, t + d)))
  }

  lemma EventSplitTakes(s: Series, e: Edit, p: int, newUid: string, t: int)
    requires IsEventEdit(e) && IsRecurringEvent(s)
    ensures TakenSplit(s, e, p, e.start.value - p, newUid, NO_PROGRESS, t, EventHead(s, p), EventTail(s, e, p, newUid))
  {
    HeadKeeps(s, s.master.body.start.value, p, t);
    EventTailTakes(s, e, p, newUid, t);
    EventSplitSlots(s, e, p, newUid, t);
  }

  lemma EventTailTakes(s: Series, e: Edit, p: int, newUid: string, t: int)
    requires IsEventEdit(e) && IsRecurringEvent(s)
    ensures MasterStartsAnew(s.master, e, newUid, NO_PROGRESS, EventTail(s, e, p, newUid).master)
    ensures var d, tail := e.start.value - p, EventTail(s, e, p, newUid);
      && (Excluded(tail, t + d) <==> Excluded(s, t) && p <= t)
      && CarriedAt(s, t, p < t, e, d, Some(newUid), e.start, e.end, tail)
  {
    EventTailMaster(s, e, p, newUid);
    EventTailCarries(s, e, p, newUid, t);
  }

  lemma EventTailMaster(s: Series, e: Edit, p: int, newUid: string)
    requires IsEventEdit(e) && IsRecurringEvent(s)
    ensures MasterStartsAnew(s.master, e, newUid, NO_PROGRESS, EventTail(s, e, p, newUid).master)
  {
    var d := e.start.value - p;
    TailMasterTakes(WithoutOverrideAt(s, p), e, p, d, EventTailRule(s, e, p), newUid, NO_PROGRESS);
  }

  lemma EventTailCarries(s: Series, e: Edit, p: int, newUid: string, t: int)
    requires IsEventEdit(e) && IsRecurringEvent(s)
    ensures var d, tail := e.start.value - p, EventTail(s, e, p, newUid);
      && (Excluded(tail, t + d) <==> Excluded(s, t) && p <= t)
      && CarriedAt(s, t, p < t, e, d, Some(newUid), e.start, e.end, tail)
  {
    var d := e.start.value - p;
    TailCarries(s, e, p, d, EventTailRule(s, e, p), newUid, NO_PROGRESS, t);
  }

  lemma EventSplitSlots(s: Series, e: Edit, p: int, newUid: string, t: int)
    requires IsRecurringEvent(s) && IsEventEdit(e)
    ensures SlotsSplit(s, e, p, e.start.value - p, t, EventHead(s, p), EventTail(s, e, p, newUid))
  {
    var d := e.start.value - p;
    if e.rule.Some? {
      TailSlots(WithoutOverrideAt(s, p), e, p, d, e.rule.value, newUid, NO_PROGRESS, t + d);
    }
    if HasSlot(s, p) {
      HeadShowsEarlier(s, p, t);
      if e.rule.None? {
        TailSlotsContinue(s, e, p, newUid, t);
      }
    }
  }

  /** Scope `thisfuture` after the first slot cuts the resource at the named occurrence; the rest goes to a new
      resource that takes the edit. */
  lemma SplitUpdateTakes(m: Resources, uid: string, e: Edit, x: int, newUid: string, t: int)
    requires IsEventEdit(e) && uid in m && newUid !in m && IsRecurringEvent(m[uid])
    requires m[uid].master.body.start.value < Resolve(m[uid], x)
    ensures var a, p := Updated(m, uid, e, ThisFuture, Some(x), newUid), Resolve(m[uid], x);
      && a.outcome == Ok && {uid, newUid} <= a.resources.Keys && a.resources - {uid, newUid} == m - {uid}
      && TakenSplit(m[uid], e, p, e.start.value - p, newUid, Progress("", None, None), t,
                    a.resources[uid], a.resources[newUid])
  {
    EventSplitTakes(m[uid], e, Resolve(m[uid], x), newUid, t);
  }

  /** A series rewritten in place at its first slot `p`, moved by `d`. */
  ghost predicate TakenFirst(s: Series, e: Edit, p: int, d: int, t: int, s': Series)
    requires AnchorOf(s.master.body).Some?
  {
    && MasterTakes(s.master, e, s'.master)
    && s'.master.body.start == e.start && s'.master.body.end == e.end
    && (HasSlot(s, p) && !Excluded(s, p) && e.rule.None? && NewAnchor(e) == Some(AnchorOf(s.master.body).value + d) ==>
          (HasSlot(s', t + d) <==> HasSlot(s, t)))
    && (e.rule.Some? ==>
          (HasSlot(s', t + d) <==> NewAnchor(e).Some? && OnGrid(NewAnchor(e).value, e.rule.value, t + d)))
    && (Excluded(s', t + d) <==> Excluded(s, t))
    && CarriedAt(s, t, t != p, e, d, None, e.start, e.end, s')
  }

  lemma EventFirstTakes(s: Series, e: Edit, p: int, t: int)
    requires IsEventEdit(e) && IsRecurringEvent(s) && p <= s.master.body.start.value
    ensures TakenFirst(s, e, p, e.start.value - s.master.body.start.value, t, EventFirst(s, e, p))
  {
    var d := e.start.value - s.master.body.start.value;
    RewritingFirstTakes(s, e, p, d, e.start, e.end, EventFirst(s, e, p).master.rule, t);
    EventFirstSlots(s, e, p, t);
  }

  lemma EventFirstSlots(s: Series, e: Edit, p: int, t: int)
    requires IsEventEdit(e) && IsRecurringEvent(s) && p <= s.master.body.start.value
    ensures var s', d := EventFirst(s, e, p), e.start.value - s.master.body.start.value;
      && (HasSlot(s, p) && e.rule.None? ==> (HasSlot(s', t + d) <==> HasSlot(s, t)))
      && (e.rule.Some? ==> (HasSlot(s', t + d) <==> OnGrid(e.start.value, e.rule.value, t + d)))
  {
    if e.rule.Some? {
      NewRuleFirstShowsRequest(s, e, p, t);
    } else if HasSlot(s, p) {
      FirstSlotBelow(s, p);
      FirstSlotsContinue(s, e, t);
    }
  }

  /** At or before the first slot scope `thisfuture` rewrites the resource in place. */
  lemma FirstUpdateTakes(m: Resources, uid: string, e: Edit, x: int, newUid: string, t: int)
    requires IsEventEdit(e) && uid in m && IsRecurringEvent(m[uid])
    requires Resolve(m[uid], x) <= m[uid].master.body.start.value
    ensures var a := Updated(m, uid, e, ThisFuture, Some(x), newUid);
      && a.outcome == Ok && uid in a.resources && a.resources - {uid} == m - {uid}
      && TakenFirst(m[uid], e, Resolve(m[uid], x), e.start.value - m[uid].master.body.start.value, t, a.resources[uid])
  {
    EventFirstTakes(m[uid], e, Resolve(m[uid], x), t);
  }

  // ----- Updates of tasks -----

  lemma TaskUpdateOutcomes(m: Resources, uid: string, e: Edit, scope: Scope, recurrenceId: Option<int>,
                           newUid: string, now: int)
    requires IsTaskEdit(e) && newUid !in m
    ensures var a := TaskUpdated(m, uid, e, scope, recurrenceId, newUid, now);
      && (a.outcome.NotFound? <==> uid !in m)
      && (a.outcome.UnknownScope? <==>
            uid in m && NamesOccurrence(m[uid], recurrenceId)
            && scope.OtherScope? && AnchorOf(m[uid].master.body).Some?)
      && (a.outcome.MissingAnchor? <==>
            uid in m && NamesOccurrence(m[uid], recurrenceId) && AnchorOf(m[uid].master.body).None?)
      && (!a.outcome.Ok? ==> a.resources == m)
      && (a.outcome.Ok? ==> LeavesOthers(m, uid, newUid, a.resources))
      && (newUid in a.resources <==>
            a.outcome.Ok? && NamesOccurrence(m[uid], recurrenceId) && scope.ThisFuture?
            && AnchorOf(m[uid].master.body).value < Resolve(m[uid], recurrenceId.value))
  {
  }

  /** The same for a task, which may be undated before and after; a new rule needs a date. */
  lemma PlainTaskUpdateTakes(m: Resources, uid: string, e: Edit, scope: Scope, recurrenceId: Option<int>,
                             newUid: string, now: int, t: int)
    requires IsTaskEdit(e) && uid in m && !NamesOccurrence(m[uid], recurrenceId)
    ensures var a := TaskUpdated(m, uid, e, scope, recurrenceId, newUid, now);
      && a.outcome == Ok && uid in a.resources && a.resources - {uid} == m - {uid}
      && var rule := if NewAnchor(e).Some? then RuleInForce(m[uid], e) else m[uid].master.rule;
         TakenWhole(m[uid], e, rule, t, a.resources[uid])
  {
    var rule := if NewAnchor(e).Some? then RuleInForce(m[uid], e) else m[uid].master.rule;
    RewritingWholeTakes(m[uid], e, rule, t);
  }

  lemma TaskAllTakes(s: Series, e: Edit, p: int, t: int)
    requires IsRecurring(s)
    ensures var d := TaskDelta(s, e, p);
      TakenMoved(s, e, d, Plus(s.master.body.start, d), Plus(s.master.body.end, d), t, TaskAll(s, e, p))
  {
    var d := TaskDelta(s, e, p);
    var start, due := Plus(s.master.body.start, d), Plus(s.master.body.end, d);
    RewritingTakes(s, e, d, start, due, TaskAll(s, e, p).master.rule, t);
    TaskAllSlots(s, e, p, t);
  }

  lemma TaskAllSlots(s: Series, e: Edit, p: int, t: int)
    requires IsRecurring(s)
    ensures var s', d := TaskAll(s, e, p), TaskDelta(s, e, p);
      && (e.rule.None? ==> (HasSlot(s', t + d) <==> HasSlot(s, t)))
      && (e.rule.Some? ==> (HasSlot(s', t + d) <==> OnGrid(AnchorOf(s.master.body).value + d, e.rule.value, t + d)))
  {
    if e.rule.None? {
      TaskAllCommutes(s, e, p, t);
    } else {
      NewRuleTaskAll(s, e, p, t);
    }
  }

  lemma AllTaskUpdateTakes(m: Resources, uid: string, e: Edit, x: int, newUid: string, now: int, t: int)
    requires IsTaskEdit(e) && uid in m && IsRecurring(m[uid])
    ensures var a := TaskUpdated(m, uid, e, All, Some(x), newUid, now);
      && a.outcome == Ok && uid in a.resources && a.resources - {uid} == m - {uid}
      && var b := m[uid].master.body;
         var edited := if b.start.Some? then e.start else e.end;
         var d := if edited.Some? then edited.value - Resolve(m[uid], x) else 0;
         TakenMoved(m[uid], e, d, Plus(b.start, d), Plus(b.end, d), t, a.resources[uid])
  {
    TaskAllTakes(m[uid], e, Resolve(m[uid], x), t);
  }

  lemma ThisTaskUpdateTakes(m: Resources, uid: string, e: Edit, x: int, newUid: string, now: int, t: int)
    requires IsTaskEdit(e) && uid in m && IsRecurring(m[uid])
    ensures var a := TaskUpdated(m, uid, e, This, Some(x), newUid, now);
      && a.outcome == Ok && uid in a.resources && a.resources - {uid} == m - {uid}
      && var s, s', p := m[uid], a.resources[uid], Resolve(m[uid], x);
      && s'.master == s.master
      && Overridden(s', p) && StandsAlone(s, e, p, CarriedProgress(s, p, now), Find(s'.overrides, p).value)
      && (t != p ==> Find(s'.overrides, t) == Find(s.overrides, t))
  {
    DetachingTakes(m[uid], e, Resolve(m[uid], x), CarriedProgress(m[uid], Resolve(m[uid], x), now), t);
  }

  lemma TaskSplitTakes(s: Series, e: Edit, p: int, newUid: string, t: int)
    requires IsRecurring(s)
    ensures TakenSplit(s, e, p, TaskAnchor(s, e, p) - p, newUid, NEW_TASK, t, TaskHead(s, p), TaskTail(s, e, p, newUid))
  {
    HeadKeeps(s, AnchorOf(s.master.body).value, p, t);
    TaskTailTakes(s, e, p, newUid, t);
    TaskSplitSlots(s, e, p, newUid, t);
  }

  lemma TaskTailTakes(s: Series, e: Edit, p: int, newUid: string, t: int)
    requires IsRecurring(s)
    ensures MasterStartsAnew(s.master, e, newUid, NEW_TASK, TaskTail(s, e, p, newUid).master)
    ensures var d, tail := TaskAnchor(s, e, p) - p, TaskTail(s, e, p, newUid);
      && (Excluded(tail, t + d) <==> Excluded(s, t) && p <= t)
      && CarriedAt(s, t, p < t, e, d, Some(newUid), e.start, e.end, tail)
  {
    TaskTailMaster(s, e, p, newUid);
    TaskTailCarries(s, e, p, newUid, t);
  }

  lemma TaskTailMaster(s: Series, e: Edit, p: int, newUid: string)
    requires IsRecurring(s)
    ensures MasterStartsAnew(s.master, e, newUid, NEW_TASK, TaskTail(s, e, p, newUid).master)
  {
    var d := TaskAnchor(s, e, p) - p;
    TailMasterTakes(WithoutOverrideAt(s, p), e, p, d, TaskFutureRule(s, e, p, d), newUid, NEW_TASK);
  }

  lemma TaskTailCarries(s: Series, e: Edit, p: int, newUid: string, t: int)
    requires IsRecurring(s)
    ensures var d, tail := TaskAnchor(s, e, p) - p, TaskTail(s, e, p, newUid);
      && (Excluded(tail, t + d) <==> Excluded(s, t) && p <= t)
      && CarriedAt(s, t, p < t, e, d, Some(newUid), e.start, e.end, tail)
  {
    var d := TaskAnchor(s, e, p) - p;
    TailCarries(s, e, p, d, TaskFutureRule(s, e, p, d), newUid, NEW_TASK, t);
  }

  lemma TaskSplitSlots(s: Series, e: Edit, p: int, newUid: string, t: int)
    requires IsRecurring(s)
    ensures SlotsSplit(s, e, p, TaskAnchor(s, e, p) - p, t, TaskHead(s, p), TaskTail(s, e, p, newUid))
  {
    var d := TaskAnchor(s, e, p) - p;
    if e.rule.Some? {
      TailSlots(WithoutOverrideAt(s, p), e, p, d, e.rule.value, newUid, NEW_TASK, t + d);
    }
    if HasSlot(s, p) {
      TaskHeadShowsEarlier(s, p, t);
      if e.rule.None? && AnchorsAgree(s, e, p) {
        TaskTailContinues(s, e, p, newUid, t);
      }
    }
  }

  lemma SplitTaskUpdateTakes(m: Resources, uid: string, e: Edit, x: int, newUid: string, now: int, t: int)
    requires IsTaskEdit(e) && uid in m && newUid !in m && IsRecurring(m[uid])
    requires AnchorOf(m[uid].master.body).value < Resolve(m[uid], x)
    ensures var a, p := TaskUpdated(m, uid, e, ThisFuture, Some(x), newUid, now), Resolve(m[uid], x);
      && a.outcome == Ok && {uid, newUid} <= a.resources.Keys && a.resources - {uid, newUid} == m - {uid}
      && TakenSplit(m[uid], e, p, TaskAnchor(m[uid], e, p) - p, newUid, Progress("NEEDS-ACTION", None, None), t,
                    a.resources[uid], a.resources[newUid])
  {
    TaskSplitTakes(m[uid], e, Resolve(m[uid], x), newUid, t);
  }

  lemma TaskFirstTakes(s: Series, e: Edit, p: int, t: int)
    requires IsRecurring(s) && p <= AnchorOf(s.master.body).value
    ensures TakenFirst(s, e, p, TaskAnchor(s, e, p) - AnchorOf(s.master.body).value, t, TaskFirst(s, e, p))
  {
    var d := TaskAnchor(s, e, p) - AnchorOf(s.master.body).value;
    RewritingFirstTakes(s, e, p, d, e.start, e.end, TaskFirst(s, e, p).master.rule, t);
    TaskFirstSlots(s, e, p, t);
  }

  lemma TaskFirstSlots(s: Series, e: Edit, p: int, t: int)
    requires IsRecurring(s) && p <= AnchorOf(s.master.body).value
    ensures var s', d := TaskFirst(s, e, p), TaskAnchor(s, e, p) - AnchorOf(s.master.body).value;
      && (HasSlot(s, p) && !Excluded(s, p) && e.rule.None?
          && NewAnchor(e) == Some(AnchorOf(s.master.body).value + d) ==>
            (HasSlot(s', t + d) <==> HasSlot(s, t)))
      && (e.rule.Some? ==>
            (HasSlot(s', t + d) <==> NewAnchor(e).Some? && OnGrid(NewAnchor(e).value, e.rule.value, t + d)))
  {
    var d := TaskAnchor(s, e, p) - AnchorOf(s.master.body).value;
    assert AnchorOf(TaskFirst(s, e, p).master.body) == NewAnchor(e);
    if e.rule.Some? && NewAnchor(e).Some? {
      IsSlotClosedForm(NewAnchor(e).value, e.rule.value, t + d);
    }
    if HasSlot(s, p) && !Excluded(s, p) && e.rule.None? && NewAnchor(e) == Some(AnchorOf(s.master.body).value + d) {
      FirstSlotBelow(s, p);
      TaskFirstMovesEverySlot(s, e, t);
    }
  }

  lemma FirstTaskUpdateTakes(m: Resources, uid: string, e: Edit, x: int, newUid: string, now: int, t: int)
    requires IsTaskEdit(e) && uid in m && IsRecurring(m[uid])
    requires Resolve(m[uid], x) <= AnchorOf(m[uid].master.body).value
    ensures var a, p := TaskUpdated(m, uid, e, ThisFuture, Some(x), newUid, now), Resolve(m[uid], x);
      && a.outcome == Ok && uid in a.resources && a.resources - {uid} == m - {uid}
      && TakenFirst(m[uid], e, p, TaskAnchor(m[uid], e, p) - AnchorOf(m[uid].master.body).value, t, a.resources[uid])
  {
    TaskFirstTakes(m[uid], e, Resolve(m[uid], x), t);
  }

  // ----- Status changes -----

  /** Why a status change is refused. On a plain task, or without naming an occurrence, it sets the status of
      the task, stamps a completion, and changes nothing else. */
  lemma PlainStatusTakes(m: Resources, uid: string, done: bool, recurrenceId: Option<int>, now: int)
    ensures var a := StatusUpdated(m, uid, done, recurrenceId, now);
      && (a.outcome.NotFound? <==> uid !in m)
      && (a.outcome.MissingAnchor? <==>
            uid in m && NamesOccurrence(m[uid], recurrenceId) && AnchorOf(m[uid].master.body).None?)
      && !a.outcome.UnknownScope?
      && (!a.outcome.Ok? ==> a.resources == m)
      && a.resources - {uid} == m - {uid}
      && (uid in m && !NamesOccurrence(m[uid], recurrenceId) ==>
            && uid in a.resources
            && var s, s' := m[uid], a.resources[uid];
               IsMarked(s'.master.body.progress, done, now)
               && s' == s.(master := s.master.(body := s.master.body.(progress := s'.master.body.progress))))
  {
    MarkIsShown(done, now);
  }

  /** What a task says of itself once it is marked: it counts as done or not, with the status, the percentage
      and the time of completion that go with it. */
  predicate IsMarked(p: Progress, done: bool, now: int) {
    && IsDone(p) == done
    && p.status == (if done then "COMPLETED" else "NEEDS-ACTION")
    && p.percent == Some(if done then 100 else 0)
    && p.completed == if done then Some(now) else None
  }

  lemma MarkIsShown(done: bool, now: int)
    ensures IsMarked(ProgressOf(done, now), done, now)
  {
    ProgressOfIsDone(done, now);
  }

  /** On a named occurrence a status change marks the override, which keeps all its other properties, or a new
      one that has the span and title of the occurrence and no more; un-completing an override that was not
      moved drops it, and a plain occurrence that is not done stays plain. */
  lemma StatusTakes(m: Resources, uid: string, done: bool, x: int, now: int, t: int)
    requires uid in m && WellFormed(m[uid])
    ensures var a := StatusUpdated(m, uid, done, Some(x), now);
      && a.outcome == Ok && uid in a.resources && a.resources - {uid} == m - {uid}
      && var s, s', p := m[uid], a.resources[uid], Resolve(m[uid], x);
      && s'.master == s.master
      && (t != p ==> Find(s'.overrides, t) == Find(s.overrides, t))
      && match Find(s.overrides, p)
         case None =>
           && (!done ==> !Overridden(s', p))
           && (done ==> Overridden(s', p) && IsNewlyDone(s, p, now, Find(s'.overrides, p).value.body))
         case Some(o) =>
           if !done && !MovedAt(s, p) then !Overridden(s', p)
           else
             && Overridden(s', p)
             && var o' := Find(s'.overrides, p).value;
                IsMarked(o'.body.progress, done, now) && o' == o.(body := o.body.(progress := o'.body.progress))
  {
    var p := Resolve(m[uid], x);
    StatusChangesOneSlot(m[uid], p, done, now, t);
    StatusChangesOneSlot(m[uid], p, done, now, p);
    MarkIsShown(done, now);
  }

  predicate IsNewlyDone(s: Series, p: int, now: int, b: Body)
    requires AnchorOf(s.master.body).Some?
  {
    && b.uid == s.master.body.uid && b.title == s.master.body.title
    && b.start == OccurrenceSpan(s, p).start && b.end == OccurrenceSpan(s, p).due && b.duration == None
    && b.location == "" && b.description == "" && b.priority == None && b.subs == []
    && IsMarked(b.progress, true, now)
  }

  /** A `this` edit carries completion over, and only that: what was done keeps its time of completion, or gets
      one; what was not done has no status at all. */
  lemma CarriedCompletion(s: Series, p: int, now: int)
    ensures var carried := CarriedProgress(s, p, now);
      var wasDone := Overridden(s, p) && IsDone(Find(s.overrides, p).value.body.progress);
      && (wasDone ==>
            var at := Find(s.overrides, p).value.body.progress.completed;
            IsMarked(carried, true, if at.Some? then at.value else now))
      && (!wasDone ==> carried == Progress("", None, None) && !IsDone(carried))
  {
    MarkIsShown(true, now);
    assert Upper("") == "";
  }

  // ----- Deletions -----

  /** Why a deletion is refused, and when it takes the whole resource. */
  lemma DeleteOutcomes(m: Resources, kind: Kind, uid: string, scope: Scope, recurrenceId: Option<int>)
    ensures var a := Deleted(m, kind, uid, scope, recurrenceId);
      && (a.outcome.NotFound? <==> uid !in m)
      && (a.outcome.MissingAnchor? <==>
            uid in m && NamesOccurrence(m[uid], recurrenceId) && !scope.All? && BaseOf(kind, m[uid].master.body).None?)
      && !a.outcome.UnknownScope?
      && (!a.outcome.Ok? ==> a.resources == m)
      && a.resources - {uid} == m - {uid}
      && (a.outcome.Ok? ==> (uid !in a.resources <==> TakesWhole(m[uid], kind, scope, recurrenceId)))
  {
    if uid !in m {
      assert m - {uid} == m;
    }
  }

  /** Everything but one occurrence, or the later ones, of a recurring item. */
  predicate TakesWhole(s: Series, kind: Kind, scope: Scope, recurrenceId: Option<int>)
    requires NamesOccurrence(s, recurrenceId) && !scope.All? ==> BaseOf(kind, s.master.body).Some?
  {
    || !NamesOccurrence(s, recurrenceId) || scope.All? || scope.OtherScope?
    || (scope.ThisFuture? && recurrenceId.value <= BaseOf(kind, s.master.body).value)
  }

  /** A deletion of less than the whole resource excludes one slot, or caps the rule and drops later overrides;
      the master keeps everything else. */
  lemma DeleteTakes(m: Resources, kind: Kind, uid: string, scope: Scope, p: int, t: int)
    requires uid in m && m[uid].master.rule.Some? && BaseOf(kind, m[uid].master.body).Some?
    requires !TakesWhole(m[uid], kind, scope, Some(p))
    ensures var s, m' := m[uid], Deleted(m, kind, uid, scope, Some(p)).resources;
      && uid in m'
      && var s' := m'[uid];
      && s'.master.body == s.master.body && s'.master.allDay == s.master.allDay
      && (scope.This? ==>
            (Excluded(s', t) <==> Excluded(s, t) || t == p)
            && (HasSlot(s', t) <==> HasSlot(s, t)) && s'.overrides == s.overrides)
      && (scope.ThisFuture? ==>
            (Excluded(s', t) <==> Excluded(s, t))
            && (HasSlot(s, AnchorOf(s.master.body).value) ==> (HasSlot(s', t) <==> HasSlot(s, t) && t < p))
            && Find(s'.overrides, t) == if t < p then Find(s.overrides, t) else None)
  {
    var s := m[uid];
    FindInKept(s.overrides, Below(p), t);
    if scope.ThisFuture? && HasSlot(s, AnchorOf(s.master.body).value) {
      HeadKeepsEarlier(s, p, t);
      assert HasSlot(DeletedFuture(s, AnchorOf(s.master.body).value, p), t) <==> HasSlot(s, t) && t < p;
    }
    assert HasSlot(DeletedThis(s, p), t) <==> HasSlot(s, t);
  }
}
