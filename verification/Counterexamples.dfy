/** Concrete inputs on which an edit does less than it promises. The exact conditions are the `Iff`
    lemmas of the modules imported here. */
module Counterexamples {
  import opened Lists
  import opened Recurrence
  import opened CalendarObject
  import opened Expansion
  import opened EventLaws
  import opened Tasks
  import opened TaskLaws

  const BODY := Body("u", Some(0), Some(3600), None, "", "", "", NO_PROGRESS, None, [])

  /** A daily event whose second occurrence was moved by an hour. */
  const DAILY := Series(
    Master(BODY, false, Some(Rule(DAY, Forever)), []),
    [Override(DAY, BODY.(start := Some(DAY + 3600), end := Some(DAY + 7200)))])

  const NO_EDIT := Edit("", "", "", Some(0), Some(3600), None, None, Untouched, {})

  lemma DailyIsWellFormed()
    ensures WellFormed(DAILY) && IsRecurringEvent(DAILY)
    ensures HasSlot(DAILY, 0) && HasSlot(DAILY, DAY) && Overridden(DAILY, DAY) && !Overridden(DAILY, 0)
  {
    var rule := Rule(DAY, Forever);
    assert Nth(0, rule.step, 0) == 0 && Live(0, rule, 0);
    assert Nth(0, rule.step, 1) == Nth(0, rule.step, 0) + DAY && Live(0, rule, 1);
    assert IsSlot(0, rule, 0) && IsSlot(0, rule, DAY);
    assert Fits(DAILY, DAILY.overrides[0]);
    FindFinds(DAILY.overrides, 0);
    FindFinds(DAILY.overrides, DAY);
    assert DAILY.overrides[0] in DAILY.overrides;
  }

  /** Deleting the moved occurrence leaves it visible. */
  lemma DeletingLeavesOverride()
    ensures Visible(DAILY, DAY) && Visible(DeletedThis(DAILY, DAY), DAY)
  {
    DailyIsWellFormed();
  }

  /** Deleting from the time it was moved to on leaves it as well. */
  lemma DeletingFutureKeepsMoved()
    ensures AnchorAt(DAILY, DAY) == Some(DAY + 3600) && Visible(DeletedFuture(DAILY, 0, DAY + 3600), DAY)
  {
    DailyIsWellFormed();
    DeleteFutureKeepsEarlier(DAILY, DAY + 3600);
    assert Find(DAILY.overrides, DAY) == Some(DAILY.overrides[0]);
  }

  /** Starting the series two hours later without naming an occurrence orphans the override. */
  lemma PivotlessEditOrphans()
    ensures WellFormed(DAILY)
    ensures !WellFormed(EventRewritten(DAILY, NO_EDIT.(start := Some(7200), end := Some(10800))))
  {
    DailyIsWellFormed();
    PivotlessEditKeepsWellFormedIff(DAILY, NO_EDIT.(start := Some(7200), end := Some(10800)));
    assert DAILY.overrides[0] in DAILY.overrides;
    assert (DAY - 7200) % DAY == DAY - 7200;
  }

  /** Three daily slots, split an hour after the second, become four. */
  lemma OffGridSplitGains()
    ensures var rule := Rule(DAY, Count(3));
      var pivot := DAY + 3600;
      !IsSlot(0, rule, pivot)
      && GridThrough(0, DAY, Truncated(0, rule, pivot, false).bound.last) + RemainingRule(0, rule, pivot).bound.n == 4
  {
    var rule := Rule(DAY, Count(3));
    IsSlotClosedForm(0, rule, DAY + 3600);
    GridThroughClosedForm(0, DAY, DAY + 3599);
    GridThroughClosedForm(0, DAY, DAY + 3600);
    HeadCount(0, DAY, 3, DAY + 3600, false);
  }

  /** Three daily slots, split at the second with the rule the editor sends back, become four. */
  lemma ResentCountGains(newUid: string)
    ensures var rule := Rule(DAY, Count(3));
      var s := Series(Master(BODY, false, Some(rule), []), []);
      var e := NO_EDIT.(start := Some(DAY), end := Some(DAY + 3600), rule := Some(rule));
      && HasSlot(s, DAY) && |SlotSet(s)| == 3
      && |SlotSet(EventHead(s, DAY))| + |SlotSet(EventTail(s, e, DAY, newUid))| == 4
  {
    var rule := Rule(DAY, Count(3));
    var s := Series(Master(BODY, false, Some(rule), []), []);
    var e := NO_EDIT.(start := Some(DAY), end := Some(DAY + 3600), rule := Some(rule));
    IsSlotClosedForm(0, rule, DAY);
    GridThroughClosedForm(0, DAY, DAY);
    NewRuleSplitCountsIff(s, e, DAY, newUid, 3, 3);
  }

  /** A time reset on a task with only a due date. */
  lemma TimeResetLosesDue(o: Override, e: Edit, due: int)
    requires Time in e.reset
    ensures var b := ResetTo(o, e, None, Some(due)).body;
      b.end == None && b.start == Some(o.rid)
  {
  }

  /** Scope `all` with a due date an hour later: the start names the move, which is none. */
  lemma LaterDueIsDropped()
    ensures var e := NO_EDIT.(end := Some(7200));
      SpanAt(TaskAll(DAILY, e, 0), 0) == Span(Some(0), Some(3600)) != Span(e.start, e.end)
  {
    DailyIsWellFormed();
    var e := NO_EDIT.(end := Some(7200));
    TaskAllCommutes(DAILY, e, 0, 0);
  }

  /** Un-completing a plain occurrence of a series whose master is done. */
  lemma MasterShowsThrough(now: int)
    ensures var s := MasterStatusSet(DAILY, true, now); DoneAt(StatusSet(s, 0, false, now), 0)
  {
    DailyIsWellFormed();
    ProgressOfIsDone(true, now);
  }

  /** A daily task of which the second occurrence was renamed where it stands. */
  const RENAMED := DAILY.(
    overrides := [Override(DAY, BODY.(start := Some(DAY), end := Some(DAY + 3600), title := "x"))])

  /** Un-completing the renamed occurrence takes its name away. */
  lemma UncompletingLosesTitle(now: int)
    ensures ShownAt(RENAMED, DAY).title == "x"
    ensures ShownAt(StatusSet(RENAMED, DAY, false, now), DAY).title == "(No title)"
  {
    assert RENAMED.overrides[1..] == [];
    assert Find(RENAMED.overrides, DAY) == Some(RENAMED.overrides[0]);
    assert StatusSet(RENAMED, DAY, false, now).overrides == [];
  }

  /** A daily task with a due date only, whose third occurrence was deleted. */
  const DUE_DAILY := Series(
    Master(BODY.(start := None, end := Some(0)), false, Some(Rule(DAY, Forever)), [2 * DAY]), [])

  /** Cutting it at the second occurrence with an edit that adds a start an hour before the due date puts
      the new slots an hour early and leaves the exclusion where it was: the deleted occurrence is back. */
  lemma AddedStartRevivesDeleted(newUid: string)
    ensures var e := NO_EDIT.(start := Some(DAY - 3600), end := Some(DAY), priority := SetTo(None));
      var tail := TaskTail(DUE_DAILY, e, DAY, newUid);
      && WellFormed(DUE_DAILY) && Visible(DUE_DAILY, DAY) && !Visible(DUE_DAILY, 2 * DAY)
      && !AnchorsAgree(DUE_DAILY, e, DAY)
      && !HasSlot(tail, DAY)
      && Visible(tail, 2 * DAY - 3600)
  {
    var e := NO_EDIT.(start := Some(DAY - 3600), end := Some(DAY), priority := SetTo(None));
    var tail := TaskTail(DUE_DAILY, e, DAY, newUid);
    var rule := Rule(DAY, Forever);
    IsSlotClosedForm(0, rule, DAY);
    IsSlotClosedForm(0, rule, 2 * DAY);
    assert tail.master.rule == Some(rule) && tail.master.body.start == Some(DAY - 3600);
    IsSlotClosedForm(DAY - 3600, rule, DAY);
    IsSlotClosedForm(DAY - 3600, rule, 2 * DAY - 3600);
    KeptTimes([2 * DAY], AtOrAfter(DAY), 2 * DAY - 3600);
    ShiftedTimes(KeepTimes([2 * DAY], AtOrAfter(DAY)), 0, 2 * DAY - 3600);
  }

  /** Completing an occurrence of a task with priority 1 takes its priority away. */
  lemma CompletingDropsPriority(now: int)
    ensures var s := DAILY.(master := DAILY.master.(body := BODY.(priority := Some(1))));
      ShownPriority(s, 0) == Some(1) && ShownPriority(StatusSet(s, 0, true, now), 0) == None
  {
    var s := DAILY.(master := DAILY.master.(body := BODY.(priority := Some(1))));
    DailyIsWellFormed();
    DetachingChangesOneSlot(s, FreshlyDone(s, 0, now), 0);
  }
}
