/** What the scoped edits and deletions of a recurring event do to what is shown. */
module EventLaws {
  import opened Lists
  import opened Recurrence
  import opened Alarms
  import opened CalendarObject
  import opened Expansion
  import opened EditEffects

  // ----- Scope `all` -----

  /** Moving a whole series commutes with expansion, whatever bounds the rule: slot `t` becomes
      slot `t + d`, excluded slots stay excluded, plain occurrences show the edited fields, and
      overrides stay where they were put. */
  lemma AllCommutesWithExpansion(s: Series, e: Edit, p: int, t: int)
    requires IsRecurringEvent(s) && IsEventEdit(e) && e.rule.None?
    ensures var s' := EventAll(s, e, p);
      var d := e.start.value - p;
      && (HasSlot(s', t + d) <==> HasSlot(s, t))
      && (Excluded(s', t + d) <==> Excluded(s, t))
      && (Overridden(s', t + d) <==> Overridden(s, t))
      && (Visible(s', t + d) <==> Visible(s, t))
      && (Overridden(s, t) && e.reset == {} ==>
            ShownAt(s', t + d) == ShownOverride(Find(s.overrides, t).value.body, e.location, e.description))
      && (!Overridden(s, t) ==> ShownAt(s', t + d) == ShownEdit(e, t + d, e.end.value - e.start.value))
  {
    var d := e.start.value - p;
    var start := s.master.body.start.value + d;
    var end := start + (e.end.value - e.start.value);
    RewritingCommutes(s, e, d, Some(start), Some(end), ShiftedRule(s.master.rule.value, d), t);
  }

  lemma AllKeepsWellFormed(s: Series, e: Edit, p: int)
    requires WellFormed(s) && IsRecurringEvent(s) && IsEventEdit(e) && e.rule.None?
    ensures WellFormed(EventAll(s, e, p))
  {
    var d := e.start.value - p;
    var start := s.master.body.start.value + d;
    RewritingKeepsWellFormed(s, e, d, Some(start), Some(start + (e.end.value - e.start.value)),
      ShiftedRule(s.master.rule.value, d));
  }

  /** A new rule leaves a moved series well-formed iff each override lies a whole number of new steps
      after the anchor, within the new bound. */
  lemma NewRuleKeepsWellFormedIff(s: Series, e: Edit, p: int)
    requires WellFormed(s) && IsRecurringEvent(s) && IsEventEdit(e) && e.rule.Some?
    ensures var d := e.start.value - p;
      WellFormed(EventAll(s, e, p)) <==> MeetGrid(s.overrides, s.master.body.start.value + d, e.rule.value, d)
  {
    var d := e.start.value - p;
    var start := s.master.body.start.value + d;
    RewritingKeepsWellFormedIff(s, e, d, Some(start), Some(start + (e.end.value - e.start.value)), e.rule.value);
  }

  /** Without an occurrence to measure from, scope `all` sets the start and rebinds nothing: overrides
      and exclusions stay, and the series stays well-formed iff the new grid still meets them. */
  lemma PivotlessEditKeepsWellFormedIff(s: Series, e: Edit)
    requires WellFormed(s) && IsRecurringEvent(s) && IsEventEdit(e)
    ensures var rule := if e.rule.Some? then e.rule.value else s.master.rule.value;
      && (forall t :: Excluded(EventRewritten(s, e), t) <==> Excluded(s, t))
      && (WellFormed(EventRewritten(s, e)) <==> MeetGrid(s.overrides, e.start.value, rule, 0))
  {
    var rule := if e.rule.Some? then e.rule.value else s.master.rule.value;
    RewritingKeepsWellFormedIff(s, e, 0, e.start, e.end, rule);
    forall t ensures Excluded(EventRewritten(s, e), t) <==> Excluded(s, t) {
      ShiftedTimes(s.master.exdates, 0, t);
    }
  }

  /** Such an edit, of a plain event or of a whole series, shows what was asked for wherever no override
      stands: the span at the requested start, and copies of it on the grid of the rule in force. */
  lemma PivotlessEditShowsRequest(s: Series, e: Edit, t: int)
    requires IsEventEdit(e)
    ensures var s' := EventRewritten(s, e);
      var rule := if e.rule.Some? then e.rule else s.master.rule;
      && (HasSlot(s', t) <==> rule.Some? && OnGrid(e.start.value, rule.value, t))
      && (Overridden(s', t) <==> Overridden(s, t))
      && (!Overridden(s, t) ==> ShownAt(s', t) == ShownEdit(e, t, e.end.value - e.start.value))
  {
    var rule := if e.rule.Some? then e.rule else s.master.rule;
    if rule.Some? {
      IsSlotClosedForm(e.start.value, rule.value, t);
    }
    MovedOverrides(s.overrides, e, 0, None, e.start, e.end, t);
    assert t + 0 == t;
  }

  /** With a new rule scope `all` shows the edited fields on the grid of that rule, from the moved start
      on; exclusions and overrides move as they do without one. */
  lemma NewRuleShowsRequest(s: Series, e: Edit, p: int, t: int)
    requires IsRecurringEvent(s) && IsEventEdit(e) && e.rule.Some?
    ensures var s' := EventAll(s, e, p);
      var d := e.start.value - p;
      && (HasSlot(s', t + d) <==> OnGrid(s.master.body.start.value + d, e.rule.value, t + d))
      && (Excluded(s', t + d) <==> Excluded(s, t))
      && (Overridden(s', t + d) <==> Overridden(s, t))
      && (!Overridden(s, t) ==> ShownAt(s', t + d) == ShownEdit(e, t + d, e.end.value - e.start.value))
  {
    var d := e.start.value - p;
    var start := s.master.body.start.value + d;
    var end := start + (e.end.value - e.start.value);
    IsSlotClosedForm(start, e.rule.value, t + d);
    ShiftedTimes(s.master.exdates, d, t);
    MovedOverrides(s.overrides, e, d, None, Some(start), Some(end), t);
  }

  /** The reminders an edit brings stand on the master next to the read-only ones; an edit that brings
      none leaves them alone. */
  lemma EditSetsReminders(b: Body, e: Edit, start: Option<int>, end: Option<int>, allDay: bool)
    ensures var after := WithFields(b, e, start, end).subs;
      && (e.reminders.None? ==> after == b.subs)
      && (e.reminders.Some? ==>
            Entries(after, allDay) == Entries(Untouchable(b.subs), allDay) + Rows(e.reminders.value, end.Some?, allDay))
  {
    if e.reminders.Some? {
      ExtractAfterApply(b.subs, e.reminders.value, end.Some?, allDay);
    }
  }

  /** A detached occurrence has the reminders of its edit and no others. */
  lemma DetachingSetsReminders(s: Series, p: int, e: Edit, progress: Progress, allDay: bool)
    ensures Entries(Detached(s, p, e, progress).body.subs, allDay)
         == if e.reminders.Some? then Rows(e.reminders.value, e.end.Some?, allDay) else []
  {
    if e.reminders.Some? {
      ExtractAfterApply([], e.reminders.value, e.end.Some?, allDay);
    }
  }

  /** With a new rule the overrides are rebound all the same, and can end up on no slot. */
  lemma NewRuleCanOrphan()
    ensures exists s: Series, e: Edit, p ::
      WellFormed(s) && IsRecurringEvent(s) && IsEventEdit(e) && !WellFormed(EventAll(s, e, p))
  {
    var body := Body("u", Some(0), Some(1), None, "", "", "", NO_PROGRESS, None, []);
    var rule := Rule(DAY, Forever);
    var s := Series(Master(body, false, Some(rule), []), [Override(DAY, body.(start := Some(DAY)))]);
    assert Nth(0, rule.step, 1) == Nth(0, rule.step, 0) + DAY && Live(0, rule, 1);
    assert IsSlot(0, rule, DAY);
    assert Fits(s, s.overrides[0]);
    var weekly := Rule(7 * DAY, Forever);
    var e := Edit("", "", "", Some(0), Some(1), Some(weekly), None, Untouched, {});
    var s' := EventAll(s, e, 0);
    assert s'.overrides[0].rid == DAY;
    forall i: nat ensures Nth(0, weekly.step, i) != DAY {
      if 0 < i {
        NthIncreases(0, weekly.step, 0, i);
      }
    }
    assert !Fits(s', s'.overrides[0]);
    assert !WellFormed(s');
    assert WellFormed(s);
  }

  // ----- Scope `thisfuture` -----

  /** What a move from `p` to the edit's start makes of slot `t`: other overrides stay as they are,
      the rest takes the edited fields and moves along. */
  function LaterOrEdited(s: Series, e: Edit, p: int, t: int): Shown
    requires IsEventEdit(e)
  {
    if t != p && Overridden(s, t) then ShownOverride(Find(s.overrides, t).value.body, e.location, e.description)
    else ShownEdit(e, t + (e.start.value - p), e.end.value - e.start.value)
  }

  /** Everything before the pivot is unchanged; everything from it on belongs to the new series,
      `d` later, where plain occurrences and the pivot show the edited fields and later overrides
      show what they did. */
  lemma SplitShowsBothParts(s: Series, e: Edit, p: int, newUid: string, t: int)
    requires IsRecurringEvent(s) && IsEventEdit(e) && e.rule.None?
    requires HasSlot(s, p) && !Excluded(s, p)
    ensures var d := e.start.value - p;
      var head, tail := EventHead(s, p), EventTail(s, e, p, newUid);
      && (HasSlot(head, t) <==> HasSlot(s, t) && t < p)
      && (Excluded(head, t) <==> Excluded(s, t) && t < p)
      && (Visible(head, t) <==> Visible(s, t) && t < p)
      && (t < p ==> ShownAt(head, t) == ShownAt(s, t))
      && (HasSlot(tail, t + d) <==> HasSlot(s, t) && p <= t)
      && (Excluded(tail, t + d) <==> Excluded(s, t) && p <= t)
      && (Visible(tail, t + d) <==> Visible(s, t) && p <= t)
      && (p <= t && e.reset == {} ==> ShownAt(tail, t + d) == LaterOrEdited(s, e, p, t))
  {
    HeadShowsEarlier(s, p, t);
    TailShowsLater(s, e, p, newUid, t);
  }

  lemma HeadShowsEarlier(s: Series, p: int, t: int)
    requires IsRecurringEvent(s) && HasSlot(s, p)
    ensures var head := EventHead(s, p);
      && (HasSlot(head, t) <==> HasSlot(s, t) && t < p)
      && (Excluded(head, t) <==> Excluded(s, t) && t < p)
      && (Visible(head, t) <==> Visible(s, t) && t < p)
      && (t < p ==> ShownAt(head, t) == ShownAt(s, t))
  {
    var s0 := WithoutOverrideAt(s, p);
    FindInKept(s.overrides, NotAt(p), t);
    assert HasSlot(s0, p);
    FirstSlotBelow(s0, p);
    assert HasSlot(s0, t) <==> HasSlot(s, t);
    HeadKeepsEarlier(s0, p, t);
  }

  lemma TailShowsLater(s: Series, e: Edit, p: int, newUid: string, t: int)
    requires IsRecurringEvent(s) && IsEventEdit(e) && e.rule.None?
    requires HasSlot(s, p) && !Excluded(s, p)
    ensures var d := e.start.value - p;
      var tail := EventTail(s, e, p, newUid);
      && (HasSlot(tail, t + d) <==> HasSlot(s, t) && p <= t)
      && (Excluded(tail, t + d) <==> Excluded(s, t) && p <= t)
      && (Visible(tail, t + d) <==> Visible(s, t) && p <= t)
      && (p <= t && e.reset == {} ==> ShownAt(tail, t + d) == LaterOrEdited(s, e, p, t))
  {
    TailSlotsContinue(s, e, p, newUid, t);
    TailShowsRest(s, e, p, newUid, t);
  }

  lemma TailSlotsContinue(s: Series, e: Edit, p: int, newUid: string, t: int)
    requires IsRecurringEvent(s) && IsEventEdit(e) && e.rule.None? && HasSlot(s, p)
    ensures HasSlot(EventTail(s, e, p, newUid), t + (e.start.value - p)) <==> HasSlot(s, t) && p <= t
  {
    var s0 := WithoutOverrideAt(s, p);
    assert HasSlot(s0, p);
    assert HasSlot(s0, t) <==> HasSlot(s, t);
    TailMovesLater(s0, e, p, e.start.value - p, newUid, NO_PROGRESS, t);
  }

  /** Under any rule the spun-off series has the later exclusions and overrides, and shows the edited fields
      wherever none of those overrides stands. */
  lemma TailShowsRest(s: Series, e: Edit, p: int, newUid: string, t: int)
    requires IsRecurringEvent(s) && IsEventEdit(e)
    ensures var d := e.start.value - p;
      var tail := EventTail(s, e, p, newUid);
      && (Excluded(tail, t + d) <==> Excluded(s, t) && p <= t)
      && (Overridden(tail, t + d) <==> Overridden(s, t) && p < t)
      && (Overridden(tail, t + d) && e.reset == {} ==>
            ShownAt(tail, t + d) == ShownOverride(Find(s.overrides, t).value.body, e.location, e.description))
      && (!Overridden(tail, t + d) ==> ShownAt(tail, t + d) == ShownEdit(e, t + d, e.end.value - e.start.value))
  {
    TailKeepsRest(s, e, p, newUid, t);
    TailShowsPlain(s, e, p, newUid, t + (e.start.value - p));
  }

  lemma TailKeepsRest(s: Series, e: Edit, p: int, newUid: string, t: int)
    requires IsRecurringEvent(s) && IsEventEdit(e)
    ensures var d := e.start.value - p;
      var tail := EventTail(s, e, p, newUid);
      && (Excluded(tail, t + d) <==> Excluded(s, t) && p <= t)
      && Find(tail.overrides, t + d)
         == (if t <= p then None else
             match Find(s.overrides, t)
             case None => None
             case Some(o) => Some(Carried(o, e, d, Some(newUid), e.start, e.end)))
  {
    FindInKept(s.overrides, NotAt(p), t);
    TailMovesRest(WithoutOverrideAt(s, p), e, p, e.start.value - p, EventTailRule(s, e, p), newUid, NO_PROGRESS, t);
  }

  lemma TailShowsPlain(s: Series, e: Edit, p: int, newUid: string, t: int)
    requires IsRecurringEvent(s) && IsEventEdit(e)
    ensures ShownPlain(EventTail(s, e, p, newUid), t) == ShownEdit(e, t, e.end.value - e.start.value)
  {
  }

  /** With a new rule the part before the pivot is as without one; the spun-off series has the grid of that
      rule from the edited start on, and shows the edited fields there. */
  lemma NewRuleSplitShowsRequest(s: Series, e: Edit, p: int, newUid: string, t: int)
    requires IsRecurringEvent(s) && IsEventEdit(e) && e.rule.Some? && HasSlot(s, p)
    ensures var d := e.start.value - p;
      var head, tail := EventHead(s, p), EventTail(s, e, p, newUid);
      && (HasSlot(head, t) <==> HasSlot(s, t) && t < p)
      && (Visible(head, t) <==> Visible(s, t) && t < p)
      && (t < p ==> ShownAt(head, t) == ShownAt(s, t))
      && (HasSlot(tail, t + d) <==> OnGrid(e.start.value, e.rule.value, t + d))
      && (Excluded(tail, t + d) <==> Excluded(s, t) && p <= t)
      && (Overridden(tail, t + d) <==> Overridden(s, t) && p < t)
      && (!Overridden(tail, t + d) ==> ShownAt(tail, t + d) == ShownEdit(e, t + d, e.end.value - e.start.value))
  {
    HeadShowsEarlier(s, p, t);
    TailShowsRest(s, e, p, newUid, t);
    var d := e.start.value - p;
    TailSlots(WithoutOverrideAt(s, p), e, p, d, e.rule.value, newUid, NO_PROGRESS, t + d);
  }

  /** An n-COUNT series splits into its first k and the other n - k slots. */
  lemma SplitDividesCount(s: Series, e: Edit, p: int, newUid: string, n: nat)
    requires IsRecurringEvent(s) && IsEventEdit(e) && e.rule.None?
    requires HasSlot(s, p) && s.master.rule.value.bound == Count(n)
    ensures var base, rule := s.master.body.start.value, s.master.rule.value;
      var k: int := SlotsThrough(base, rule, p) - 1;
      var kept := EventHead(s, p).master.rule.value;
      && 0 <= k < n
      && Nth(base, rule.step, k) == p
      && (forall i: nat :: Live(base, kept, i) <==> i < k)
      && EventTail(s, e, p, newUid).master.rule == Some(rule.(bound := Count(n - k)))
  {
    var base, rule := s.master.body.start.value, s.master.rule.value;
    var k: nat :| Nth(base, rule.step, k) == p && Live(base, rule, k);
    SlotsThroughAt(base, rule, k);
    LiveIsPrefix(base, rule, 0, k);
    forall i: nat ensures Live(base, EventHead(s, p).master.rule.value, i) <==> i < k {
      TruncateKeepsEarlierSlots(base, rule, p, s.master.allDay, i);
      NthOrdered(base, rule.step, i, k);
    }
  }

  /** A new rule brings its own COUNT: split at slot `k`, `n` slots stay `n` in total iff it counts the
      `n - k` that are left. */
  lemma NewRuleSplitCountsIff(s: Series, e: Edit, p: int, newUid: string, n: nat, m: nat)
    requires IsRecurringEvent(s) && IsEventEdit(e) && HasSlot(s, p) && s.master.rule.value.bound == Count(n)
    requires e.rule.Some? && e.rule.value.bound == Count(m)
    ensures var k: int := SlotsThrough(s.master.body.start.value, s.master.rule.value, p) - 1;
      var total := |SlotSet(EventHead(s, p))| + |SlotSet(EventTail(s, e, p, newUid))|;
      && |SlotSet(s)| == n && total == k + m
      && (total == |SlotSet(s)| <==> m == n - k)
  {
    var s0 := WithoutOverrideAt(s, p);
    assert HasSlot(s0, p);
    HeadSize(s0, p);
    SlotSetSize(s, n);
    SlotSetSize(EventTail(s, e, p, newUid), m);
  }

  lemma SplitKeepsBothWellFormed(s: Series, e: Edit, p: int, newUid: string)
    requires WellFormed(s) && IsRecurringEvent(s) && IsEventEdit(e) && e.rule.None? && HasSlot(s, p)
    ensures WellFormed(EventHead(s, p)) && WellFormed(EventTail(s, e, p, newUid))
  {
    var s0 := WithoutOverrideAt(s, p);
    DroppingKeepsWellFormed(s, p);
    assert HasSlot(s0, p);
    HeadKeepsWellFormed(s0, p);
    TailKeepsWellFormed(s0, e, p, e.start.value - p, newUid, NO_PROGRESS);
  }

  /** With a new rule scope `thisfuture` leaves the spun-off series well-formed iff each migrated override
      lies on the grid of that rule once it is rebound. */
  lemma NewRuleSplitKeepsWellFormedIff(s: Series, e: Edit, p: int, newUid: string)
    requires WellFormed(s) && IsRecurringEvent(s) && IsEventEdit(e) && e.rule.Some?
    ensures WellFormed(EventTail(s, e, p, newUid))
        <==> LaterMeetGrid(s.overrides, p, e.start.value, e.rule.value, e.start.value - p)
    ensures HasSlot(s, p) ==> WellFormed(EventHead(s, p))
  {
    CutTailKeepsWellFormedIff(s, e, p, e.start.value - p, e.rule.value, newUid, NO_PROGRESS);
    if HasSlot(s, p) {
      DroppingKeepsWellFormed(s, p);
      assert HasSlot(WithoutOverrideAt(s, p), p);
      HeadKeepsWellFormed(WithoutOverrideAt(s, p), p);
    }
  }

  /** The same for the series rewritten in place, where every override but the one at the pivot stays. */
  lemma NewRuleFirstKeepsWellFormedIff(s: Series, e: Edit, p: int)
    requires WellFormed(s) && IsRecurringEvent(s) && IsEventEdit(e) && e.rule.Some?
    ensures var d := e.start.value - s.master.body.start.value;
      WellFormed(EventFirst(s, e, p)) <==> KeptMeetGrid(s.overrides, NotAt(p), e.start.value, e.rule.value, d)
  {
    var d := e.start.value - s.master.body.start.value;
    DroppingKeepsWellFormed(s, p);
    KeptMeetGridIff(s.overrides, NotAt(p), e.start.value, e.rule.value, d);
    RewritingKeepsWellFormedIff(WithoutOverrideAt(s, p), e, d, e.start, e.end, e.rule.value);
  }

  /** At the first slot there is nothing to split off: the series is rewritten in place, and the
      override at the pivot, if any, gives way. */
  lemma FirstMovesEveryOccurrence(s: Series, e: Edit, t: int)
    requires IsRecurringEvent(s) && IsEventEdit(e) && e.rule.None?
    requires var p := s.master.body.start.value; HasSlot(s, p) && !Excluded(s, p)
    ensures var p := s.master.body.start.value;
      var s' := EventFirst(s, e, p);
      var d := e.start.value - p;
      && (HasSlot(s', t + d) <==> HasSlot(s, t))
      && (Excluded(s', t + d) <==> Excluded(s, t))
      && (Visible(s', t + d) <==> Visible(s, t))
      && (e.reset == {} ==> ShownAt(s', t + d) == LaterOrEdited(s, e, p, t))
  {
    var p := s.master.body.start.value;
    FirstSlotsContinue(s, e, t);
    FirstShowsRest(s, e, p, t);
  }

  lemma FirstSlotsContinue(s: Series, e: Edit, t: int)
    requires IsRecurringEvent(s) && IsEventEdit(e) && e.rule.None? && HasSlot(s, s.master.body.start.value)
    ensures var p := s.master.body.start.value;
      HasSlot(EventFirst(s, e, p), t + (e.start.value - p)) <==> HasSlot(s, t)
  {
    var p := s.master.body.start.value;
    var s0 := WithoutOverrideAt(s, p);
    RemainingAtFirst(s);
    assert HasSlot(s0, t) <==> HasSlot(s, t);
    RewritingCommutes(s0, e, e.start.value - p, e.start, e.end, ShiftedRule(s.master.rule.value, e.start.value - p), t);
  }

  /** Under any rule the series rewritten in place keeps its exclusions and its other overrides, moved, and
      shows the edited fields elsewhere. */
  lemma FirstShowsRest(s: Series, e: Edit, p: int, t: int)
    requires IsRecurringEvent(s) && IsEventEdit(e)
    ensures var d := e.start.value - s.master.body.start.value;
      var s' := EventFirst(s, e, p);
      && (Excluded(s', t + d) <==> Excluded(s, t))
      && (Overridden(s', t + d) <==> Overridden(s, t) && t != p)
      && (Overridden(s', t + d) && e.reset == {} ==>
            ShownAt(s', t + d) == ShownOverride(Find(s.overrides, t).value.body, e.location, e.description))
      && (!Overridden(s', t + d) ==> ShownAt(s', t + d) == ShownEdit(e, t + d, e.end.value - e.start.value))
  {
    var d := e.start.value - s.master.body.start.value;
    FindInKept(s.overrides, NotAt(p), t);
    ShiftedTimes(s.master.exdates, d, t);
    MovedOverrides(KeepRids(s.overrides, NotAt(p)), e, d, None, e.start, e.end, t);
  }

  /** With a new rule that series has the grid of that rule from the edited start on. */
  lemma NewRuleFirstShowsRequest(s: Series, e: Edit, p: int, t: int)
    requires IsRecurringEvent(s) && IsEventEdit(e) && e.rule.Some?
    ensures var d := e.start.value - s.master.body.start.value;
      var s' := EventFirst(s, e, p);
      && (HasSlot(s', t + d) <==> OnGrid(e.start.value, e.rule.value, t + d))
      && (Excluded(s', t + d) <==> Excluded(s, t))
      && (Overridden(s', t + d) <==> Overridden(s, t) && t != p)
      && (!Overridden(s', t + d) ==> ShownAt(s', t + d) == ShownEdit(e, t + d, e.end.value - e.start.value))
  {
    FirstShowsRest(s, e, p, t);
    IsSlotClosedForm(e.start.value, e.rule.value, t + (e.start.value - s.master.body.start.value));
  }

  lemma RemainingAtFirst(s: Series)
    requires IsRecurringEvent(s) && HasSlot(s, s.master.body.start.value)
    ensures var p, rule := s.master.body.start.value, s.master.rule.value; RemainingRule(p, rule, p) == rule
  {
    var p, rule := s.master.body.start.value, s.master.rule.value;
    FirstSlotIsLive(s);
    assert Nth(p, rule.step, 0) == p;
    SlotsThroughAt(p, rule, 0);
  }

  lemma FirstKeepsWellFormed(s: Series, e: Edit)
    requires WellFormed(s) && IsRecurringEvent(s) && IsEventEdit(e) && e.rule.None?
    requires HasSlot(s, s.master.body.start.value)
    ensures WellFormed(EventFirst(s, e, s.master.body.start.value))
  {
    var p := s.master.body.start.value;
    DroppingKeepsWellFormed(s, p);
    RemainingAtFirst(s);
    RewritingKeepsWellFormed(WithoutOverrideAt(s, p), e, e.start.value - p, e.start, e.end,
      ShiftedRule(s.master.rule.value, e.start.value - p));
  }

  /** The new series shows the reminders of the old one when the edit brings none, and otherwise the
      read-only ones followed by those of the edit. */
  lemma SplitCarriesReminders(s: Series, e: Edit, p: int, newUid: string, allDay: bool)
    requires IsRecurringEvent(s) && IsEventEdit(e)
    ensures var before, after := s.master.body.subs, EventTail(s, e, p, newUid).master.body.subs;
      && (e.reminders.None? ==> Entries(after, allDay) == Entries(before, allDay))
      && (e.reminders.Some? ==>
            Entries(after, allDay) == Entries(Untouchable(before), allDay) + Rows(e.reminders.value, true, allDay))
  {
    OnlyAlarmsReadTheSame(s.master.body.subs);
    if e.reminders.Some? {
      ExtractAfterApply(OnlyAlarms(s.master.body.subs), e.reminders.value, true, allDay);
    }
  }

  // ----- Lengths -----

  /** An event with a DURATION instead of an end shows an end that much after its start, at every slot and on
      overrides; an end of its own comes first. */
  lemma DurationShowsEnd(s: Series, t: int)
    requires s.master.body.start.Some?
    ensures var b := s.master.body;
      && (b.end.None? && b.duration.Some? ==> ShownPlain(s, t).end == Some(t + b.duration.value))
      && (b.end.Some? ==> ShownPlain(s, t).end == Some(t + b.end.value - b.start.value))
      && (b.end.None? && b.duration.None? ==> ShownPlain(s, t).end == None)
    ensures Overridden(s, t) && Find(s.overrides, t).value.body.start.Some? ==>
      var b := Find(s.overrides, t).value.body;
      && (b.end.None? && b.duration.Some? ==> ShownAt(s, t).end == Some(b.start.value + b.duration.value))
      && (b.end.Some? ==> ShownAt(s, t).end == b.end)
  {
  }

  // ----- Scope `this` -----

  lemma ThisChangesOneOccurrence(s: Series, e: Edit, p: int, t: int)
    requires IsEventEdit(e)
    ensures var s' := EventThis(s, e, p);
      && (HasSlot(s', t) <==> HasSlot(s, t))
      && (Visible(s', t) <==> t == p || Visible(s, t))
      && ShownAt(s', t) ==
           if t == p then
             ShownEdit(e, e.start.value, e.end.value - e.start.value).(
               location := OrElse(e.location, s.master.body.location),
               description := OrElse(e.description, s.master.body.description))
           else ShownAt(s, t)
  {
    DetachingChangesOneSlot(s, Detached(s, p, e, NO_PROGRESS), t);
  }

  // ----- Resets -----

  const DISPLAYED: set<Field> := {Time, Title, Location, Description}

  /** Once time and texts are reset, an override shows what the plain occurrence at its slot
      would, so dropping it changes nothing that is shown there. */
  lemma ResetShowsPlain(s: Series, ovs: seq<Override>, e: Edit, t: int)
    requires DISPLAYED <= e.reset
    requires var b := s.master.body;
      && b.start.Some? && b.end.Some?
      && b.title == e.title && b.location == e.location && b.description == e.description
      && s.overrides == MaybeReset(ovs, e, b.start, b.end)
    ensures ShownAt(s, t) == ShownAt(s.(overrides := []), t)
  {
    assert Time in DISPLAYED && Time in e.reset;
    FindInReset(ovs, e, s.master.body.start, s.master.body.end, t);
    FindFinds(ovs, t);
    if Find(ovs, t).Some? {
      ResetOverrideShowsPlain(s, Find(ovs, t).value, e);
    }
  }

  lemma ResetOverrideShowsPlain(s: Series, o: Override, e: Edit)
    requires DISPLAYED <= e.reset
    requires var b := s.master.body;
      && b.start.Some? && b.end.Some?
      && b.title == e.title && b.location == e.location && b.description == e.description
    ensures var b := s.master.body;
      ShownOverride(ResetTo(o, e, b.start, b.end).body, b.location, b.description) == ShownPlain(s, o.rid)
  {
    assert Time in DISPLAYED && Title in DISPLAYED && Location in DISPLAYED && Description in DISPLAYED;
  }

  lemma AllWithResetShowsPlain(s: Series, e: Edit, p: int, t: int)
    requires IsRecurringEvent(s) && IsEventEdit(e) && DISPLAYED <= e.reset
    ensures var s' := EventAll(s, e, p); ShownAt(s', t) == ShownAt(s'.(overrides := []), t)
  {
    ResetShowsPlain(EventAll(s, e, p), ReboundAll(s.overrides, e.start.value - p, None), e, t);
  }

  lemma SplitWithResetShowsPlain(s: Series, e: Edit, p: int, newUid: string, t: int)
    requires IsRecurringEvent(s) && IsEventEdit(e) && DISPLAYED <= e.reset
    ensures var tail := EventTail(s, e, p, newUid); ShownAt(tail, t) == ShownAt(tail.(overrides := []), t)
    ensures var s' := EventFirst(s, e, p); ShownAt(s', t) == ShownAt(s'.(overrides := []), t)
  {
    var s0 := WithoutOverrideAt(s, p);
    ResetShowsPlain(EventTail(s, e, p, newUid),
      ReboundAll(KeepRids(s0.overrides, AtOrAfter(p)), e.start.value - p, Some(newUid)), e, t);
    ResetShowsPlain(EventFirst(s, e, p),
      ReboundAll(s0.overrides, e.start.value - s.master.body.start.value, None), e, t);
  }

  /** Resetting a second time changes nothing. */
  lemma ResetIsIdempotent(ovs: seq<Override>, e: Edit, start: Option<int>, end: Option<int>)
    ensures MaybeReset(MaybeReset(ovs, e, start, end), e, start, end) == MaybeReset(ovs, e, start, end)
  {
    if e.reset != {} {
      var once := ResetAll(ovs, e, start, end);
      forall i | 0 <= i < |ovs| ensures ResetTo(once[i], e, start, end) == once[i] {
        ResetToTwice(ovs[i], e, start, end);
      }
    }
  }

  lemma ResetToTwice(o: Override, e: Edit, start: Option<int>, end: Option<int>)
    ensures ResetTo(ResetTo(o, e, start, end), e, start, end) == ResetTo(o, e, start, end)
  {
    if Alerts in e.reset && e.reminders.Some? {
      var hasEnd := HasEnd(ResetTo(o, e, start, end).body);
      ApplyForgetsEarlierLists(o.body.subs, e.reminders, e.reminders.value, hasEnd, hasEnd);
    }
  }

  /** A time reset reproduces the plain span exactly for items that have a start: an item with
      only an end loses it and gains a start. */
  lemma TimeResetIsPlainIff(o: Override, e: Edit, start: Option<int>, end: Option<int>)
    requires Time in e.reset && (start.Some? || end.Some?)
    ensures var anchor := if start.Some? then start.value else end.value;
      var b := ResetTo(o, e, start, end).body;
      (b.start == Plus(start, o.rid - anchor) && b.end == Plus(end, o.rid - anchor)) <==> start.Some?
  {
  }

  // ----- Which occurrence a request means -----

  /** The slot of an occurrence finds it iff the occurrence is overridden or no override was moved onto
      that slot. */
  lemma StableIdResolvesIff(s: Series, t: int)
    ensures Resolve(s, t) == t <==> Overridden(s, t) || forall o | o in s.overrides :: AnchorOf(o.body) != Some(t)
  {
    FindFinds(s.overrides, t);
    FindByAnchorFinds(s.overrides, t);
  }

  /** What the user sees names an occurrence: its displayed start is one of its two names. */
  lemma DisplayedStartNames(s: Series, t: int)
    requires IsRecurringEvent(s) && Visible(s, t) && ShownAt(s, t).start.Some?
    ensures Names(s, t) && Names(s, ShownAt(s, t).start.value)
  {
    assert AnchorAt(s, t) == ShownAt(s, t).start;
  }

  /** Of the overrides anchored at `shown` the first one in the resource is that of slot `t`. */
  ghost predicate IsFirstShownAt(ovs: seq<Override>, t: int, shown: int) {
    exists i | 0 <= i < |ovs| :: ovs[i].rid == t && IsFirstAt(ovs, i, shown)
  }

  ghost predicate IsFirstAt(ovs: seq<Override>, i: nat, shown: int)
    requires i < |ovs|
  {
    AnchorOf(ovs[i].body) == Some(shown) && forall j | 0 <= j < i :: AnchorOf(ovs[j].body) != Some(shown)
  }

  lemma {:induction false} FindByAnchorIsFirst(ovs: seq<Override>, i: nat, shown: int)
    requires i < |ovs| && IsFirstAt(ovs, i, shown)
    ensures FindByAnchor(ovs, shown) == Some(ovs[i])
  {
    if i != 0 {
      forall j | 0 <= j < i - 1 ensures AnchorOf(ovs[1..][j].body) != Some(shown) {
        assert ovs[1..][j] == ovs[j + 1];
      }
      FindByAnchorIsFirst(ovs[1..], i - 1, shown);
    }
  }

  lemma {:induction false} FoundByAnchorIsFirst(ovs: seq<Override>, shown: int) returns (i: nat)
    requires FindByAnchor(ovs, shown).Some?
    ensures i < |ovs| && IsFirstAt(ovs, i, shown) && FindByAnchor(ovs, shown) == Some(ovs[i])
  {
    i := 0;
    if AnchorOf(ovs[0].body) != Some(shown) {
      var k := FoundByAnchorIsFirst(ovs[1..], shown);
      i := k + 1;
      forall j | 0 <= j < i ensures AnchorOf(ovs[j].body) != Some(shown) {
        assert j == 0 || ovs[j] == ovs[1..][j - 1];
      }
    }
  }

  /** The displayed start of a moved occurrence finds it, iff it is no other override's
      RECURRENCE-ID and the occurrence is the first override shown there. */
  lemma DisplayedStartResolvesIff(s: Series, t: int, shown: int)
    requires Overridden(s, t) && AnchorOf(Find(s.overrides, t).value.body) == Some(shown)
    ensures Resolve(s, shown) == t
        <==> shown == t || ((forall o | o in s.overrides :: o.rid != shown) && IsFirstShownAt(s.overrides, t, shown))
  {
    FindFinds(s.overrides, t);
    FindFinds(s.overrides, shown);
    FindByAnchorFinds(s.overrides, shown);
    var i := FoundByAnchorIsFirst(s.overrides, shown);
    if IsFirstShownAt(s.overrides, t, shown) {
      var k :| 0 <= k < |s.overrides| && s.overrides[k].rid == t && IsFirstAt(s.overrides, k, shown);
      FindByAnchorIsFirst(s.overrides, k, shown);
    }
  }

  /** Dragging one occurrence onto the slot of another makes requests for the other reach the
      first. */
  lemma ResolveCanMiss()
    ensures exists s: Series, t :: WellFormed(s) && Visible(s, t) && Resolve(s, t) != t
  {
    var body := Body("u", Some(0), Some(1), None, "", "", "", NO_PROGRESS, None, []);
    var rule := Rule(DAY, Forever);
    var s := Series(Master(body, false, Some(rule), []), [Override(0, body.(start := Some(DAY)))]);
    assert Nth(0, rule.step, 0) == 0 && Live(0, rule, 0);
    assert Nth(0, rule.step, 1) == Nth(0, rule.step, 0) + DAY && Live(0, rule, 1);
    assert IsSlot(0, rule, 0) && IsSlot(0, rule, DAY);
    assert Fits(s, s.overrides[0]) && HasSlot(s, DAY);
    assert Visible(s, DAY);
    FindInSingle(s.overrides[0], DAY);
    assert s.overrides == [s.overrides[0]];
    assert Resolve(s, DAY) == 0;
  }

  lemma FindInSingle(o: Override, x: int)
    ensures Find([o], x) == if o.rid == x then Some(o) else None
    ensures FindByAnchor([o], x) == if AnchorOf(o.body) == Some(x) then Some(o) else None
  {
    assert [o][1..] == [];
  }

  /** When no override sits on a slot other than its own and no two sit at one time, both values
      find the occurrence. */
  ghost predicate Unambiguous(s: Series) {
    && (forall o | o in s.overrides :: AnchorOf(o.body).Some?)
    && (forall o | o in s.overrides :: Visible(s, AnchorOf(o.body).value) ==> AnchorOf(o.body).value == o.rid)
    && (forall o, q | o in s.overrides && q in s.overrides && AnchorOf(o.body) == AnchorOf(q.body) :: o.rid == q.rid)
  }

  lemma BothNamesResolve(s: Series, t: int)
    requires IsRecurringEvent(s) && Unambiguous(s) && Visible(s, t)
    ensures Resolve(s, t) == t
    ensures ShownAt(s, t).start.Some? ==> Resolve(s, ShownAt(s, t).start.value) == t
  {
    FindFinds(s.overrides, t);
    FindByAnchorFinds(s.overrides, t);
    if Overridden(s, t) {
      var shown := AnchorOf(Find(s.overrides, t).value.body).value;
      FindFinds(s.overrides, shown);
      FindByAnchorFinds(s.overrides, shown);
    }
  }

  /** Repeating a `this` edit replaces the override it made, leaving the same resource, exactly
      when the request is resolved to the same occurrence. */
  lemma RepeatedThisIsStableIff(s: Series, e: Edit, p: int, x: int)
    ensures var once := EventThis(s, e, p);
      EventThis(once, e, Resolve(once, x)) == once <==> Resolve(once, x) == p
  {
    RepeatedAtIff(s, e, p, Resolve(EventThis(s, e, p), x));
  }

  lemma RepeatedAtIff(s: Series, e: Edit, p: int, q: int)
    ensures EventThis(EventThis(s, e, p), e, q) == EventThis(s, e, p) <==> q == p
  {
    var once := EventThis(s, e, p);
    LastIsDetached(s, Detached(s, p, e, NO_PROGRESS));
    LastIsDetached(once, Detached(once, q, e, NO_PROGRESS));
    if q == p {
      DetachedTwice(s, Detached(s, p, e, NO_PROGRESS));
    }
  }

  lemma LastIsDetached(s: Series, o: Override)
    ensures var ovs := WithOverride(s, o).overrides; ovs != [] && ovs[|ovs| - 1] == o
  {
  }

  lemma DetachedTwice(s: Series, o: Override)
    ensures WithOverride(WithOverride(s, o), o) == WithOverride(s, o)
  {
    var kept := KeepRids(s.overrides, NotAt(o.rid));
    KeepRidsTwice(s.overrides, o.rid);
    assert (kept + [o])[..|kept|] == kept;
  }

  lemma {:induction false} KeepRidsTwice(ovs: seq<Override>, p: int)
    ensures KeepRids(KeepRids(ovs, NotAt(p)), NotAt(p)) == KeepRids(ovs, NotAt(p))
  {
    if ovs != [] {
      KeepRidsTwice(ovs[..|ovs| - 1], p);
      var kept := KeepRids(ovs, NotAt(p));
      if Keeps(NotAt(p), ovs[|ovs| - 1].rid) {
        assert kept[..|kept| - 1] == KeepRids(ovs[..|ovs| - 1], NotAt(p));
      }
    }
  }

  /** The edited occurrence is found again under its RECURRENCE-ID always, and under its new start
      iff no other override owns that time first. */
  lemma EditedOccurrenceIsFoundIff(s: Series, e: Edit, p: int)
    requires IsEventEdit(e)
    ensures var once := EventThis(s, e, p);
      var others := KeepRids(s.overrides, NotAt(p));
      && Resolve(once, p) == p
      && (Resolve(once, e.start.value) == p <==>
            e.start.value == p || (Find(others, e.start.value).None? && FindByAnchor(others, e.start.value).None?))
  {
    var once := EventThis(s, e, p);
    var others := KeepRids(s.overrides, NotAt(p));
    var o := Detached(s, p, e, NO_PROGRESS);
    var x := e.start.value;
    DetachingChangesOneSlot(s, o, p);
    FindInConcat(others, [o], x);
    FindByAnchorInConcat(others, [o], x);
    FindByAnchorFinds(others, x);
    KeepRidsIsFilter(s.overrides, NotAt(p));
  }

  lemma {:induction false} FindByAnchorInConcat(a: seq<Override>, b: seq<Override>, t: int)
    ensures FindByAnchor(a + b, t) == if FindByAnchor(a, t).Some? then FindByAnchor(a, t) else FindByAnchor(b, t)
  {
    if a == [] {
      assert a + b == b;
    } else {
      assert (a + b)[1..] == a[1..] + b;
      if AnchorOf(a[0].body) != Some(t) {
        FindByAnchorInConcat(a[1..], b, t);
      }
    }
  }

  // ----- Deletions -----

  /** Deleting `this` takes away exactly its occurrence, iff the occurrence has no override; an
      overridden one stays. */
  lemma DeleteThisRemovesIff(s: Series, p: int)
    requires Visible(s, p)
    ensures (forall t :: Visible(DeletedThis(s, p), t) <==> Visible(s, t) && t != p) <==> !Overridden(s, p)
  {
  }

  /** A deletion does not look for the occurrence its name stands for: whichever of its names is given, an
      occurrence is removed, and nothing else, iff it has no override. */
  lemma DeleteThisByNameIff(s: Series, t: int, x: int)
    requires Visible(s, t) && (x == t || AnchorAt(s, t) == Some(x))
    ensures (forall u :: Visible(DeletedThis(s, x), u) <==> Visible(s, u) && u != t) <==> !Overridden(s, t)
  {
    if Overridden(s, t) {
      assert Visible(DeletedThis(s, x), t);
    }
  }

  /** Deleting `thisfuture` under the time an occurrence was moved to cuts at its slot iff it was not moved
      to a later time and no occurrence lies in between. */
  lemma DeleteFutureByNameIff(s: Series, t: int, x: int)
    requires WellFormed(s) && HasSlot(s, AnchorOf(s.master.body).value) && Visible(s, t)
    ensures CutsAt(s, DeletedFuture(s, AnchorOf(s.master.body).value, x), t)
        <==> x <= t && forall u | x <= u < t :: !Visible(s, u)
  {
    DeleteFutureKeepsEarlier(s, x);
    var s' := DeletedFuture(s, AnchorOf(s.master.body).value, x);
    if CutsAt(s, s', t) {
      assert Visible(s', t) <==> Visible(s, t) && t < x;
      forall u | x <= u < t ensures !Visible(s, u) {
        assert Visible(s', u) <==> Visible(s, u) && u < x;
      }
    }
  }

  /** What is left are the occurrences before slot `t`. */
  ghost predicate CutsAt(s: Series, s': Series, t: int) {
    forall u :: Visible(s', u) <==> Visible(s, u) && u < t
  }

  lemma DeleteThisKeepsWellFormed(s: Series, p: int)
    requires WellFormed(s) && !Overridden(s, p)
    ensures WellFormed(DeletedThis(s, p))
  {
    var s' := DeletedThis(s, p);
    FindFinds(s.overrides, p);
    forall o | o in s'.overrides ensures Fits(s', o) {
      assert Fits(s, o);
    }
  }

  /** Deleting `thisfuture` leaves exactly the occurrences of earlier slots, as they were, and no
      override without a slot. */
  lemma DeleteFutureKeepsEarlier(s: Series, p: int)
    requires WellFormed(s) && HasSlot(s, AnchorOf(s.master.body).value)
    ensures var s' := DeletedFuture(s, AnchorOf(s.master.body).value, p);
      && (forall t :: Visible(s', t) <==> Visible(s, t) && t < p)
      && (forall t | t < p :: ShownAt(s', t) == ShownAt(s, t))
      && WellFormed(s')
  {
    var base := AnchorOf(s.master.body).value;
    var s' := DeletedFuture(s, base, p);
    forall t
      ensures HasSlot(s', t) <==> HasSlot(s, t) && t < p
      ensures Find(s'.overrides, t) == if t < p then Find(s.overrides, t) else None
    {
      HeadKeepsEarlier(s, p, t);
    }
    forall t ensures Visible(s', t) <==> Visible(s, t) && t < p {
    }
    forall t | t < p ensures ShownAt(s', t) == ShownAt(s, t) {
    }
    KeptRidsStayDistinct(s.overrides, Below(p));
    KeepRidsIsFilter(s.overrides, Below(p));
    forall o | o in s'.overrides ensures Fits(s', o) {
      assert Fits(s, o);
    }
  }
}
