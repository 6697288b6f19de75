/** Completion of recurring tasks over runs of requests, and what task moves do to slots. */
module TaskLaws {
  import opened Lists
  import opened Ascii
  import opened Recurrence
  import opened CalendarObject
  import opened EditEffects
  import opened Expansion
  import opened Tasks

  // ----- What is shown of a task occurrence -----

  function SpanAt(s: Series, t: int): Span
    requires AnchorOf(s.master.body).Some?
  {
    match Find(s.overrides, t)
    case Some(o) => SpanOf(o.body)
    case None => OccurrenceSpan(s, t)
  }

  predicate DoneAt(s: Series, t: int) {
    match Find(s.overrides, t)
    case Some(o) => IsDone(o.body.progress)
    case None => IsDone(s.master.body.progress)
  }

  /** Was the occurrence detached and given a span of its own? */
  predicate MovedAt(s: Series, t: int)
    requires AnchorOf(s.master.body).Some?
  {
    Overridden(s, t) && SpanAt(s, t) != OccurrenceSpan(s, t)
  }

  // ----- One status change -----

  /** A task counts as done iff its status says so in any letter case, it has a time of completion, or it is
      at least 100 percent complete. */
  lemma DoneIff(p: Progress)
    ensures IsDone(p) <==> SaysCompleted(p) || p.completed.Some? || (p.percent.Some? && 100 <= p.percent.value)
  {
    UpperIff(p.status, "COMPLETED");
  }

  predicate SaysCompleted(p: Progress) {
    SameButCase(p.status, "COMPLETED")
  }

  lemma ProgressOfIsDone(done: bool, now: int)
    ensures IsDone(ProgressOf(done, now)) == done
  {
    assert Upper("COMPLETED") == "COMPLETED";
    assert Upper("NEEDS-ACTION")[0] == 'N';
  }

  lemma {:induction false} FindAfterReplace(ovs: seq<Override>, o: Override, t: int)
    requires Find(ovs, o.rid).Some?
    ensures Find(ReplaceFirst(ovs, o), t) == if t == o.rid then Some(o) else Find(ovs, t)
  {
    if ovs[0].rid != o.rid && ovs[0].rid != t {
      FindAfterReplace(ovs[1..], o, t);
    } else if ovs[0].rid != o.rid {
      assert ReplaceFirst(ovs, o)[0] == ovs[0];
    } else {
      assert ([o] + ovs[1..])[1..] == ovs[1..];
    }
  }

  lemma {:induction false} FindAfterRemove(ovs: seq<Override>, p: int, t: int)
    requires DistinctRids(ovs) && Find(ovs, p).Some?
    ensures Find(RemoveFirst(ovs, Find(ovs, p).value), t) == if t == p then None else Find(ovs, t)
  {
    FindFinds(ovs[1..], p);
    if ovs[0].rid != p {
      FindFinds(ovs, p);
      FindAfterRemove(ovs[1..], p, t);
    }
  }

  /** After a status change every override is the one that was there, marked, or gone, or a new
      one on the slot that was named. */
  lemma StatusChangesOneSlot(s: Series, p: int, done: bool, now: int, t: int)
    requires WellFormed(s)
    ensures var after := Find(StatusSet(s, p, done, now).overrides, t);
      if t != p then after == Find(s.overrides, t)
      else match Find(s.overrides, p)
        case Some(o) =>
          if !done && SpanOf(o.body) == OccurrenceSpan(s, p) then after == None
          else after == Some(o.(body := o.body.(progress := ProgressOf(done, now))))
        case None => after == if done then Some(FreshlyDone(s, p, now)) else None
  {
    if Overridden(s, p) {
      var o := Find(s.overrides, p).value;
      FindFinds(s.overrides, p);
      FindAfterRemove(s.overrides, p, t);
      FindAfterReplace(s.overrides, o.(body := o.body.(progress := ProgressOf(done, now))), t);
    } else if done {
      DetachingChangesOneSlot(s, FreshlyDone(s, p, now), t);
    }
  }

  /** The displayed start and due of every occurrence survive any status change. */
  lemma StatusKeepsTimes(s: Series, p: int, done: bool, now: int, t: int)
    requires WellFormed(s)
    ensures SpanAt(StatusSet(s, p, done, now), t) == SpanAt(s, t)
  {
    StatusChangesOneSlot(s, p, done, now, t);
  }

  /** Completing an occurrence changes none of its texts either. */
  lemma CompletingKeepsTexts(s: Series, p: int, now: int, t: int)
    requires WellFormed(s)
    ensures var before, after := ShownAt(s, t), ShownAt(StatusSet(s, p, true, now), t);
      after.title == before.title && after.location == before.location && after.description == before.description
  {
    StatusChangesOneSlot(s, p, true, now, t);
  }

  /** Does an override show the texts of the series? */
  predicate ShowsSeriesTexts(s: Series, o: Override) {
    var b := s.master.body;
    && DisplayedTitle(o.body.title) == DisplayedTitle(b.title)
    && (o.body.location == "" || o.body.location == b.location)
    && (o.body.description == "" || o.body.description == b.description)
  }

  /** Un-completing an occurrence keeps its texts iff it was moved, or never detached, or shows the texts of
      the series anyway: an override that was not moved is dropped with whatever else it had. */
  lemma UncompletingKeepsTextsIff(s: Series, p: int, now: int)
    requires WellFormed(s)
    ensures var before, after := ShownAt(s, p), ShownAt(StatusSet(s, p, false, now), p);
      (after.title == before.title && after.location == before.location && after.description == before.description)
        <==> !Overridden(s, p) || MovedAt(s, p) || ShowsSeriesTexts(s, Find(s.overrides, p).value)
  {
    StatusChangesOneSlot(s, p, false, now, p);
  }

  /** A status change takes effect at its slot iff it completes the task, or the master is not
      itself done, or the occurrence was moved and so keeps its override. */
  lemma StatusTakesEffectIff(s: Series, p: int, done: bool, now: int)
    requires WellFormed(s)
    ensures DoneAt(StatusSet(s, p, done, now), p) == done
        <==> done || !IsDone(s.master.body.progress) || MovedAt(s, p)
  {
    StatusChangesOneSlot(s, p, done, now, p);
    ProgressOfIsDone(done, now);
  }

  lemma {:induction false} RemovedStayDistinct(ovs: seq<Override>, o: Override)
    requires DistinctRids(ovs)
    ensures DistinctRids(RemoveFirst(ovs, o))
    ensures forall x | x in RemoveFirst(ovs, o) :: x in ovs
  {
    if ovs != [] && ovs[0] != o {
      RemovedStayDistinct(ovs[1..], o);
      forall x | x in RemoveFirst(ovs[1..], o) ensures x.rid != ovs[0].rid {
        assert x in ovs[1..];
      }
    }
  }

  lemma {:induction false} ReplacedOnly(ovs: seq<Override>, o: Override)
    ensures |ReplaceFirst(ovs, o)| == |ovs|
    ensures forall i | 0 <= i < |ovs| ::
      ReplaceFirst(ovs, o)[i] == ovs[i] || (ReplaceFirst(ovs, o)[i] == o && ovs[i].rid == o.rid)
  {
    if ovs != [] && ovs[0].rid != o.rid {
      ReplacedOnly(ovs[1..], o);
    }
  }

  lemma StatusKeepsWellFormed(s: Series, p: int, done: bool, now: int)
    requires WellFormed(s) && Visible(s, p)
    ensures WellFormed(StatusSet(s, p, done, now))
  {
    FindFinds(s.overrides, p);
    if Overridden(s, p) {
      var o := Find(s.overrides, p).value;
      if !done && SpanOf(o.body) == OccurrenceSpan(s, p) {
        RemovedStayDistinct(s.overrides, o);
        SubsetKeepsFit(s, RemoveFirst(s.overrides, o));
      } else {
        var marked := o.(body := o.body.(progress := ProgressOf(done, now)));
        ReplacedOnly(s.overrides, marked);
        var s' := s.(overrides := ReplaceFirst(s.overrides, marked));
        forall x | x in s'.overrides ensures Fits(s', x) {
          assert Fits(s, o) && (x == marked || Fits(s, x));
        }
      }
    } else if done {
      DetachingKeepsWellFormed(s, FreshlyDone(s, p, now));
    }
  }

  lemma SubsetKeepsFit(s: Series, ovs: seq<Override>)
    requires WellFormed(s) && DistinctRids(ovs) && forall x | x in ovs :: x in s.overrides
    ensures WellFormed(s.(overrides := ovs))
  {
    forall x | x in ovs ensures Fits(s.(overrides := ovs), x) {
      assert Fits(s, x);
    }
  }

  // ----- One `this` move -----

  lemma MoveKeepsCompletion(s: Series, e: Edit, p: int, now: int, t: int)
    requires WellFormed(s)
    ensures var s' := TaskThis(s, e, p, now);
      && SpanAt(s', t) == (if t == p then Span(e.start, e.end) else SpanAt(s, t))
      && (t != p ==> DoneAt(s', t) == DoneAt(s, t))
      && (DoneAt(s', p) == DoneAt(s, p) <==> Overridden(s, p) || !IsDone(s.master.body.progress))
  {
    DetachingChangesOneSlot(s, Detached(s, p, e, CarriedProgress(s, p, now)), t);
    DetachingChangesOneSlot(s, Detached(s, p, e, CarriedProgress(s, p, now)), p);
    assert Upper("") == "";
    assert Upper("COMPLETED") == "COMPLETED";
  }

  /** A move keeps the completion time of a done occurrence that has one. */
  lemma MoveKeepsCompletionTime(s: Series, e: Edit, p: int, now: int)
    requires Overridden(s, p) && Find(s.overrides, p).value.body.progress.completed.Some?
    ensures var s' := TaskThis(s, e, p, now);
      && Overridden(s', p)
      && Find(s'.overrides, p).value.body.progress.completed == Find(s.overrides, p).value.body.progress.completed
  {
    DetachingChangesOneSlot(s, Detached(s, p, e, CarriedProgress(s, p, now)), p);
  }

  // ----- Texts and completion -----

  predicate ShowsTexts(s: Series, e: Edit, t: int) {
    var shown := ShownAt(s, t);
    shown.title == DisplayedTitle(e.title) && shown.location == e.location && shown.description == e.description
  }

  /** Every edit of a task series shows its texts wherever no override stands. */
  lemma SeriesEditsShowTexts(s: Series, e: Edit, p: int, newUid: string, t: int)
    requires IsRecurring(s)
    ensures !Overridden(TaskAll(s, e, p), t) ==> ShowsTexts(TaskAll(s, e, p), e, t)
    ensures !Overridden(TaskFirst(s, e, p), t) ==> ShowsTexts(TaskFirst(s, e, p), e, t)
    ensures !Overridden(TaskTail(s, e, p, newUid), t) ==> ShowsTexts(TaskTail(s, e, p, newUid), e, t)
    ensures !Overridden(TaskRewritten(s, e), t) ==> ShowsTexts(TaskRewritten(s, e), e, t)
  {
  }

  /** An override that an edit does not reset goes on showing what it did, but for a location or description
      that it takes from the series. */
  lemma SeriesEditsKeepOverrides(s: Series, e: Edit, p: int, newUid: string, t: int)
    requires IsRecurring(s) && e.reset == {} && Overridden(s, t)
    ensures var own := ShownOverride(Find(s.overrides, t).value.body, e.location, e.description);
      var shift, first := TaskAnchor(s, e, p) - p, TaskAnchor(s, e, p) - AnchorOf(s.master.body).value;
      && ShownAt(TaskAll(s, e, p), t + TaskDelta(s, e, p)) == own
      && (t != p ==> ShownAt(TaskFirst(s, e, p), t + first) == own)
      && (p < t ==> ShownAt(TaskTail(s, e, p, newUid), t + shift) == own)
      && ShownAt(TaskRewritten(s, e), t) == own
  {
    AllKeepsOverride(s, e, p, t);
    FirstKeepsOverride(s, e, p, t);
    TailKeepsOverride(s, e, p, newUid, t);
    MovedOverrides(s.overrides, e, 0, None, e.start, e.end, t);
    assert t + 0 == t;
  }

  lemma AllKeepsOverride(s: Series, e: Edit, p: int, t: int)
    requires IsRecurring(s) && e.reset == {} && Overridden(s, t)
    ensures ShownAt(TaskAll(s, e, p), t + TaskDelta(s, e, p))
         == ShownOverride(Find(s.overrides, t).value.body, e.location, e.description)
  {
    var d := TaskDelta(s, e, p);
    MovedOverrides(s.overrides, e, d, None, Plus(s.master.body.start, d), Plus(s.master.body.end, d), t);
  }

  lemma FirstKeepsOverride(s: Series, e: Edit, p: int, t: int)
    requires IsRecurring(s) && e.reset == {} && Overridden(s, t)
    ensures var d := TaskAnchor(s, e, p) - AnchorOf(s.master.body).value;
      var own := ShownOverride(Find(s.overrides, t).value.body, e.location, e.description);
      t != p ==> ShownAt(TaskFirst(s, e, p), t + d) == own
  {
    var d := TaskAnchor(s, e, p) - AnchorOf(s.master.body).value;
    FindInKept(s.overrides, NotAt(p), t);
    MovedOverrides(KeepRids(s.overrides, NotAt(p)), e, d, None, e.start, e.end, t);
  }

  lemma TailKeepsOverride(s: Series, e: Edit, p: int, newUid: string, t: int)
    requires IsRecurring(s) && e.reset == {} && Overridden(s, t)
    ensures var d := TaskAnchor(s, e, p) - p;
      var own := ShownOverride(Find(s.overrides, t).value.body, e.location, e.description);
      p < t ==> ShownAt(TaskTail(s, e, p, newUid), t + d) == own
  {
    var d := TaskAnchor(s, e, p) - p;
    FindInKept(s.overrides, NotAt(p), t);
    TailMovesRest(WithoutOverrideAt(s, p), e, p, d, TaskFutureRule(s, e, p, d), newUid, NEW_TASK, t);
  }

  /** Scope `this` shows the title of the edit at its slot, and its location and description or else those of
      the series; other occurrences show what they did. */
  lemma ThisShowsTexts(s: Series, e: Edit, p: int, now: int, t: int)
    ensures var s' := TaskThis(s, e, p, now);
      && ShownAt(s', p).title == DisplayedTitle(e.title)
      && ShownAt(s', p).location == (if e.location == "" then s.master.body.location else e.location)
      && ShownAt(s', p).description == (if e.description == "" then s.master.body.description else e.description)
      && (t != p ==> ShownAt(s', t) == ShownAt(s, t))
  {
    var o := Detached(s, p, e, CarriedProgress(s, p, now));
    DetachingChangesOneSlot(s, o, p);
    DetachingChangesOneSlot(s, o, t);
  }

  /** Editing a series, or several occurrences of it, leaves every override as done or not as it was. Plain
      occurrences stay as the master is, but those of a spun-off series are not done. */
  lemma SeriesEditsKeepCompletion(s: Series, e: Edit, p: int, newUid: string, t: int)
    requires IsRecurring(s)
    ensures var shift, first := TaskAnchor(s, e, p) - p, TaskAnchor(s, e, p) - AnchorOf(s.master.body).value;
      && DoneAt(TaskAll(s, e, p), t + TaskDelta(s, e, p)) == DoneAt(s, t)
      && DoneAt(TaskFirst(s, e, p), t + first) == (if t == p then IsDone(s.master.body.progress) else DoneAt(s, t))
      && (t < p ==> DoneAt(TaskHead(s, p), t) == DoneAt(s, t))
      && DoneAt(TaskTail(s, e, p, newUid), t + shift) == (p < t && Overridden(s, t) && DoneAt(s, t))
      && DoneAt(TaskRewritten(s, e), t) == DoneAt(s, t)
  {
    AllKeepsCompletion(s, e, p, t);
    PivotlessKeepsCompletion(s, e, t);
    FirstKeepsCompletion(s, e, p, t);
    HeadKeeps(s, AnchorOf(s.master.body).value, p, t);
    TailKeepsCompletion(s, e, p, newUid, t);
  }

  lemma AllKeepsCompletion(s: Series, e: Edit, p: int, t: int)
    requires IsRecurring(s)
    ensures DoneAt(TaskAll(s, e, p), t + TaskDelta(s, e, p)) == DoneAt(s, t)
  {
    var d := TaskDelta(s, e, p);
    RewritingTakes(s, e, d, Plus(s.master.body.start, d), Plus(s.master.body.end, d), TaskAll(s, e, p).master.rule, t);
  }

  lemma PivotlessKeepsCompletion(s: Series, e: Edit, t: int)
    requires IsRecurring(s)
    ensures DoneAt(TaskRewritten(s, e), t) == DoneAt(s, t)
  {
    RewritingTakes(s, e, 0, e.start, e.end, TaskRewritten(s, e).master.rule, t);
    assert t + 0 == t;
  }

  lemma FirstKeepsCompletion(s: Series, e: Edit, p: int, t: int)
    requires IsRecurring(s)
    ensures DoneAt(TaskFirst(s, e, p), t + (TaskAnchor(s, e, p) - AnchorOf(s.master.body).value))
         == if t == p then IsDone(s.master.body.progress) else DoneAt(s, t)
  {
    var d := TaskAnchor(s, e, p) - AnchorOf(s.master.body).value;
    RewritingFirstTakes(s, e, p, d, e.start, e.end, TaskFirst(s, e, p).master.rule, t);
  }

  lemma TailKeepsCompletion(s: Series, e: Edit, p: int, newUid: string, t: int)
    requires IsRecurring(s)
    ensures DoneAt(TaskTail(s, e, p, newUid), t + (TaskAnchor(s, e, p) - p))
         == (p < t && Overridden(s, t) && DoneAt(s, t))
  {
    var d := TaskAnchor(s, e, p) - p;
    TailTakes(s, e, p, d, TaskFutureRule(s, e, p, d), newUid, NEW_TASK, t);
    assert Upper("NEEDS-ACTION")[0] == 'N';
  }

  // ----- Priorities -----

  /** The priority shown for slot `t`, where 0 means none: the override's own, which unlike its texts is
      not made up for from the master, or the master's. */
  function ShownPriority(s: Series, t: int): Option<int> {
    match Find(s.overrides, t)
    case Some(o) => Displayed(o.body.priority)
    case None => Displayed(s.master.body.priority)
  }

  function Displayed(priority: Option<int>): Option<int> {
    if priority == Some(0) then None else priority
  }

  predicate ShowsPriority(s: Series, e: Edit, t: int)
    requires IsTaskEdit(e)
  {
    Overridden(s, t) || ShownPriority(s, t) == Displayed(e.priority.value)
  }

  /** The scopes that edit the series show the requested priority wherever no override stands. */
  lemma SeriesEditsShowPriority(s: Series, e: Edit, p: int, newUid: string, t: int)
    requires IsRecurring(s) && IsTaskEdit(e)
    ensures ShowsPriority(TaskAll(s, e, p), e, t)
    ensures ShowsPriority(TaskFirst(s, e, p), e, t)
    ensures ShowsPriority(TaskTail(s, e, p, newUid), e, t)
  {
  }

  /** A detached occurrence gets no priority: scope `this` shows the requested one iff that is none, and
      completing a plain occurrence keeps the one shown iff there was none. */
  lemma DetachingKeepsPriorityIff(s: Series, e: Edit, p: int, now: int)
    requires AnchorOf(s.master.body).Some? && IsTaskEdit(e)
    ensures var asked := Displayed(e.priority.value);
      ShownPriority(TaskThis(s, e, p, now), p) == asked <==> asked == None
    ensures !Overridden(s, p) ==>
      (ShownPriority(StatusSet(s, p, true, now), p) == ShownPriority(s, p) <==> ShownPriority(s, p) == None)
    ensures Overridden(s, p) ==> ShownPriority(StatusSet(s, p, true, now), p) == ShownPriority(s, p)
  {
    DetachingChangesOneSlot(s, Detached(s, p, e, CarriedProgress(s, p, now)), p);
    if Overridden(s, p) {
      FindFinds(s.overrides, p);
      var o := Find(s.overrides, p).value;
      FindAfterReplace(s.overrides, o.(body := o.body.(progress := ProgressOf(true, now))), p);
    } else {
      DetachingChangesOneSlot(s, FreshlyDone(s, p, now), p);
    }
  }

  // ----- Runs of status changes and moves -----

  datatype TaskOp = Toggle(x: int, done: bool, now: int) | MoveThis(x: int, edit: Edit, now: int)

  function Apply1(s: Series, op: TaskOp): Series
    requires AnchorOf(s.master.body).Some?
  {
    var p := Resolve(s, op.x);
    match op
    case Toggle(_, done, now) => StatusSet(s, p, done, now)
    case MoveThis(_, e, now) => TaskThis(s, e, p, now)
  }

  ghost predicate CanRun(s: Series, ops: seq<TaskOp>)
    requires AnchorOf(s.master.body).Some?
    decreases |ops|
  {
    ops != [] ==> Names(s, ops[0].x) && CanRun(Apply1(s, ops[0]), ops[1..])
  }

  function RunAll(s: Series, ops: seq<TaskOp>): Series
    requires AnchorOf(s.master.body).Some?
    decreases |ops|
  {
    if ops == [] then s else RunAll(Apply1(s, ops[0]), ops[1..])
  }

  /** The slots that the requests of a run are resolved to, one after the other. */
  function SlotsNamed(s: Series, ops: seq<TaskOp>): (slots: seq<int>)
    requires AnchorOf(s.master.body).Some?
    ensures |slots| == |ops|
    decreases |ops|
  {
    if ops == [] then [] else [Resolve(s, ops[0].x)] + SlotsNamed(Apply1(s, ops[0]), ops[1..])
  }

  /** One occurrence by itself: was it detached, when is it, is it done? */
  datatype Occurrence = Occurrence(detached: bool, span: Span, done: bool)

  function OccurrenceAt(s: Series, t: int): Occurrence
    requires AnchorOf(s.master.body).Some?
  {
    Occurrence(Overridden(s, t), SpanAt(s, t), DoneAt(s, t))
  }

  /** The occurrence as the master has it. */
  function PlainAt(s: Series, t: int): Occurrence
    requires AnchorOf(s.master.body).Some?
  {
    Occurrence(false, OccurrenceSpan(s, t), IsDone(s.master.body.progress))
  }

  /** What a request does to the occurrence it names, whatever the rest of the series looks like. */
  function AfterOp(op: TaskOp, plain: Occurrence, o: Occurrence): Occurrence {
    match op
    case Toggle(_, done, _) =>
      if done then Occurrence(true, o.span, true)
      else if o.span == plain.span then plain
      else Occurrence(true, o.span, false)
    case MoveThis(_, e, _) => Occurrence(true, Span(e.start, e.end), o.detached && o.done)
  }

  /** The history of slot `t`: only the requests that named it count. */
  function Replay(ops: seq<TaskOp>, slots: seq<int>, t: int, plain: Occurrence, o: Occurrence): Occurrence
    requires |slots| == |ops|
  {
    if ops == [] then o
    else Replay(ops[1..], slots[1..], t, plain, if slots[0] == t then AfterOp(ops[0], plain, o) else o)
  }

  /** The span of the last move among them. */
  function LastSpan(ops: seq<TaskOp>, slots: seq<int>, t: int, span: Span): Span
    requires |slots| == |ops|
  {
    if ops == [] then span
    else LastSpan(ops[1..], slots[1..], t,
      if slots[0] == t && ops[0].MoveThis? then Span(ops[0].edit.start, ops[0].edit.end) else span)
  }

  /** The status of the last toggle among them. */
  function LastStatus(ops: seq<TaskOp>, slots: seq<int>, t: int, done: bool): bool
    requires |slots| == |ops|
  {
    if ops == [] then done
    else LastStatus(ops[1..], slots[1..], t, if slots[0] == t && ops[0].Toggle? then ops[0].done else done)
  }

  lemma OpChangesOneOccurrence(s: Series, op: TaskOp, t: int)
    requires WellFormed(s) && Names(s, op.x)
    ensures var s', p := Apply1(s, op), Resolve(s, op.x);
      && WellFormed(s') && s'.master == s.master
      && (Visible(s', t) <==> Visible(s, t))
      && OccurrenceAt(s', t) == if p == t then AfterOp(op, PlainAt(s, t), OccurrenceAt(s, t)) else OccurrenceAt(s, t)
  {
    var p := Resolve(s, op.x);
    NamedResolvesToSlot(s, op.x);
    match op {
      case Toggle(_, done, now) =>
        StatusKeepsWellFormed(s, p, done, now);
        StatusChangesOneSlot(s, p, done, now, t);
        ProgressOfIsDone(done, now);
      case MoveThis(_, e, now) =>
        var o := Detached(s, p, e, CarriedProgress(s, p, now));
        DetachingKeepsWellFormed(s, o);
        DetachingChangesOneSlot(s, o, t);
        MoveKeepsCompletion(s, e, p, now, t);
        assert Upper("") == "" && Upper("COMPLETED") == "COMPLETED";
    }
    assert HasSlot(Apply1(s, op), t) <==> HasSlot(s, t);
  }

  /** Over any run of toggles and moves, of any series, what becomes of an occurrence is decided by the
      requests that name it: the others leave it alone, and nothing appears or disappears. */
  lemma {:induction false} RunIsReplay(s: Series, ops: seq<TaskOp>, t: int)
    requires WellFormed(s) && CanRun(s, ops)
    ensures var s' := RunAll(s, ops);
      && WellFormed(s')
      && (Visible(s', t) <==> Visible(s, t))
      && OccurrenceAt(s', t) == Replay(ops, SlotsNamed(s, ops), t, PlainAt(s, t), OccurrenceAt(s, t))
    decreases |ops|
  {
    if ops != [] {
      OpChangesOneOccurrence(s, ops[0], t);
      var rest := SlotsNamed(Apply1(s, ops[0]), ops[1..]);
      RunIsReplay(Apply1(s, ops[0]), ops[1..], t);
      assert SlotsNamed(s, ops)[1..] == rest;
    }
  }

  lemma {:induction false} ReplayKeepsApart(ops: seq<TaskOp>, slots: seq<int>, t: int, plain: Occurrence, o: Occurrence)
    requires |slots| == |ops| && (o.detached || o == plain)
    ensures Replay(ops, slots, t, plain, o).span == LastSpan(ops, slots, t, o.span)
    ensures !plain.done ==> Replay(ops, slots, t, plain, o).done == LastStatus(ops, slots, t, o.done)
    decreases |ops|
  {
    if ops != [] {
      ReplayKeepsApart(ops[1..], slots[1..], t, plain, if slots[0] == t then AfterOp(ops[0], plain, o) else o);
    }
  }

  /** So toggles never touch times, and moves never touch completion unless the master itself is done:
      an occurrence has the span of the last move and the status of the last toggle that named it. */
  lemma TogglesAndMovesAreIndependent(s: Series, ops: seq<TaskOp>, t: int)
    requires WellFormed(s) && CanRun(s, ops)
    ensures var s', slots := RunAll(s, ops), SlotsNamed(s, ops);
      && AnchorOf(s'.master.body).Some?
      && SpanAt(s', t) == LastSpan(ops, slots, t, SpanAt(s, t))
      && (!IsDone(s.master.body.progress) ==> DoneAt(s', t) == LastStatus(ops, slots, t, DoneAt(s, t)))
  {
    RunIsReplay(s, ops, t);
    ReplayKeepsApart(ops, SlotsNamed(s, ops), t, PlainAt(s, t), OccurrenceAt(s, t));
  }

  // ----- Scope `all` of a task -----

  /** Scope `all` moves every slot, override and exclusion, whatever the edit contains. */
  lemma TaskAllCommutes(s: Series, e: Edit, p: int, t: int)
    requires IsRecurring(s) && e.rule.None?
    ensures var s' := TaskAll(s, e, p);
      var d := TaskDelta(s, e, p);
      && (HasSlot(s', t + d) <==> HasSlot(s, t))
      && (Excluded(s', t + d) <==> Excluded(s, t))
      && (Visible(s', t + d) <==> Visible(s, t))
      && (e.reset == {} && Overridden(s, t) ==> SpanAt(s', t + d) == SpanAt(s, t))
      && (!Overridden(s, t) ==> SpanAt(s', t + d) == OccurrenceSpan(s, t + d))
  {
    var d := TaskDelta(s, e, p);
    var start, due := Plus(s.master.body.start, d), Plus(s.master.body.end, d);
    RewritingCommutes(s, e, d, start, due, ShiftedRule(s.master.rule.value, d), t);
  }

  predicate KeepsLength(s: Series, e: Edit) {
    var b := s.master.body;
    && e.start.Some? == b.start.Some? && e.end.Some? == b.end.Some?
    && (b.start.Some? && b.end.Some? ==> e.end.value - e.start.value == b.end.value - b.start.value)
  }

  /** A plain occurrence edited with scope `all` shows the span asked for iff that span has the
      series' own properties and length: a due date moved relative to the start is not kept. */
  lemma TaskAllShowsRequestIff(s: Series, e: Edit, p: int)
    requires IsRecurring(s) && e.rule.None? && !Overridden(s, p)
    ensures SpanAt(TaskAll(s, e, p), p + TaskDelta(s, e, p)) == Span(e.start, e.end) <==> KeepsLength(s, e)
  {
    TaskAllCommutes(s, e, p, p);
  }

  /** With or without a new rule, scope `all` keeps every override on a slot iff the rebound ones meet
      the grid in force. */
  lemma TaskAllKeepsWellFormedIff(s: Series, e: Edit, p: int)
    requires WellFormed(s)
    ensures e.rule.None? ==> WellFormed(TaskAll(s, e, p))
    ensures e.rule.Some? ==> var d := TaskDelta(s, e, p);
      (WellFormed(TaskAll(s, e, p)) <==> MeetGrid(s.overrides, AnchorOf(s.master.body).value + d, e.rule.value, d))
  {
    var d := TaskDelta(s, e, p);
    var start, due := Plus(s.master.body.start, d), Plus(s.master.body.end, d);
    if e.rule.None? {
      RewritingKeepsWellFormed(s, e, d, start, due, ShiftedRule(s.master.rule.value, d));
    } else {
      RewritingKeepsWellFormedIff(s, e, d, start, due, e.rule.value);
    }
  }

  /** With a new rule scope `all` has the grid of that rule from the moved anchor on; exclusions and
      overrides move as they do without one, and plain occurrences keep their length. */
  lemma NewRuleTaskAll(s: Series, e: Edit, p: int, t: int)
    requires IsRecurring(s) && e.rule.Some?
    ensures var d := TaskDelta(s, e, p);
      var s' := TaskAll(s, e, p);
      && (HasSlot(s', t + d) <==> OnGrid(AnchorOf(s.master.body).value + d, e.rule.value, t + d))
      && (Excluded(s', t + d) <==> Excluded(s, t))
      && (Overridden(s', t + d) <==> Overridden(s, t))
      && (!Overridden(s, t) ==> SpanAt(s', t + d) == OccurrenceSpan(s, t + d))
  {
    var d := TaskDelta(s, e, p);
    IsSlotClosedForm(AnchorOf(s.master.body).value + d, e.rule.value, t + d);
    ShiftedTimes(s.master.exdates, d, t);
    MovedOverrides(s.overrides, e, d, None, Plus(s.master.body.start, d), Plus(s.master.body.end, d), t);
  }

  /** The rule in force after an edit that names no occurrence: a new one needs a date to start from. */
  function RewrittenRule(s: Series, e: Edit): Rule
    requires s.master.rule.Some?
  {
    if e.rule.Some? && NewAnchor(e).Some? then e.rule.value else s.master.rule.value
  }

  /** Such an edit puts the series on the grid of that rule from the requested date on and rebinds nothing;
      plain occurrences have the requested span. */
  lemma PivotlessTaskEditShowsRequest(s: Series, e: Edit, t: int)
    requires IsRecurring(s)
    ensures var s' := TaskRewritten(s, e);
      && (HasSlot(s', t) <==> NewAnchor(e).Some? && OnGrid(NewAnchor(e).value, RewrittenRule(s, e), t))
      && (Excluded(s', t) <==> Excluded(s, t))
      && (Overridden(s', t) <==> Overridden(s, t))
      && (NewAnchor(e).Some? && !Overridden(s, t) ==>
            SpanAt(s', t) == Span(Plus(e.start, t - NewAnchor(e).value), Plus(e.end, t - NewAnchor(e).value)))
  {
    if NewAnchor(e).Some? {
      IsSlotClosedForm(NewAnchor(e).value, RewrittenRule(s, e), t);
    }
    ShiftedTimes(s.master.exdates, 0, t);
    MovedOverrides(s.overrides, e, 0, None, e.start, e.end, t);
    assert t + 0 == t;
  }

  lemma PivotlessTaskEditKeepsWellFormedIff(s: Series, e: Edit)
    requires WellFormed(s)
    ensures WellFormed(TaskRewritten(s, e))
        <==> NewAnchor(e).Some? && MeetGrid(s.overrides, NewAnchor(e).value, RewrittenRule(s, e), 0)
  {
    if NewAnchor(e).Some? {
      RewritingKeepsWellFormedIff(s, e, 0, e.start, e.end, RewrittenRule(s, e));
    }
  }

  // ----- Scope `thisfuture` of a task -----

  /** The edited series starts at the time the move was measured to. It does not when the edit gives a
      start to a series that had only a due date and sets the due date elsewhere, when it takes the
      start away and leaves the due date elsewhere, or when it leaves no date at all. */
  predicate AnchorsAgree(s: Series, e: Edit, p: int) {
    NewAnchor(e) == Some(TaskAnchor(s, e, p))
  }

  /** Scope `thisfuture` divides slots, exclusions and occurrences of a task at the pivot as it does an
      event's. */
  lemma TaskSplitDivides(s: Series, e: Edit, p: int, newUid: string, t: int)
    requires IsRecurring(s) && e.rule.None? && AnchorsAgree(s, e, p)
    requires HasSlot(s, p) && !Excluded(s, p)
    ensures var d := TaskAnchor(s, e, p) - p;
      var head, tail := TaskHead(s, p), TaskTail(s, e, p, newUid);
      && (HasSlot(head, t) <==> HasSlot(s, t) && t < p)
      && (Excluded(head, t) <==> Excluded(s, t) && t < p)
      && (Visible(head, t) <==> Visible(s, t) && t < p)
      && (t < p ==> SpanAt(head, t) == SpanAt(s, t))
      && (HasSlot(tail, t + d) <==> HasSlot(s, t) && p <= t)
      && (Excluded(tail, t + d) <==> Excluded(s, t) && p <= t)
      && (Visible(tail, t + d) <==> Visible(s, t) && p <= t)
      && (t == p ==> SpanAt(tail, t + d) == Span(e.start, e.end))
      && (p < t && Overridden(s, t) && e.reset == {} ==> SpanAt(tail, t + d) == SpanAt(s, t))
  {
    TaskHeadShowsEarlier(s, p, t);
    TaskTailShowsLater(s, e, p, newUid, t);
  }

  lemma TaskHeadShowsEarlier(s: Series, p: int, t: int)
    requires IsRecurring(s) && HasSlot(s, p)
    ensures var head := TaskHead(s, p);
      && (HasSlot(head, t) <==> HasSlot(s, t) && t < p)
      && (Excluded(head, t) <==> Excluded(s, t) && t < p)
      && (Visible(head, t) <==> Visible(s, t) && t < p)
      && (t < p ==> SpanAt(head, t) == SpanAt(s, t))
  {
    var s0 := WithoutOverrideAt(s, p);
    FindInKept(s.overrides, NotAt(p), t);
    assert HasSlot(s0, p);
    FirstSlotBelow(s0, p);
    assert HasSlot(s0, t) <==> HasSlot(s, t);
    HeadKeepsEarlier(s0, p, t);
  }

  lemma TaskTailShowsLater(s: Series, e: Edit, p: int, newUid: string, t: int)
    requires IsRecurring(s) && e.rule.None? && AnchorsAgree(s, e, p)
    requires HasSlot(s, p) && !Excluded(s, p)
    ensures var d := TaskAnchor(s, e, p) - p;
      var tail := TaskTail(s, e, p, newUid);
      && (HasSlot(tail, t + d) <==> HasSlot(s, t) && p <= t)
      && (Excluded(tail, t + d) <==> Excluded(s, t) && p <= t)
      && (Visible(tail, t + d) <==> Visible(s, t) && p <= t)
      && (t == p ==> SpanAt(tail, t + d) == Span(e.start, e.end))
      && (p < t && Overridden(s, t) && e.reset == {} ==> SpanAt(tail, t + d) == SpanAt(s, t))
  {
    TaskTailContinues(s, e, p, newUid, t);
    TaskTailKeepsRest(s, e, p, newUid, t);
  }

  lemma TaskTailContinues(s: Series, e: Edit, p: int, newUid: string, t: int)
    requires IsRecurring(s) && e.rule.None? && AnchorsAgree(s, e, p) && HasSlot(s, p)
    ensures HasSlot(TaskTail(s, e, p, newUid), t + (TaskAnchor(s, e, p) - p)) <==> HasSlot(s, t) && p <= t
  {
    var s0 := WithoutOverrideAt(s, p);
    assert HasSlot(s0, p);
    assert HasSlot(s0, t) <==> HasSlot(s, t);
    TailMovesLater(s0, e, p, TaskAnchor(s, e, p) - p, newUid, NEW_TASK, t);
  }

  /** Under any rule the spun-off task has the later exclusions and overrides, moved by the same amount. */
  lemma TaskTailKeepsRest(s: Series, e: Edit, p: int, newUid: string, t: int)
    requires IsRecurring(s)
    ensures var d := TaskAnchor(s, e, p) - p;
      var tail := TaskTail(s, e, p, newUid);
      && (Excluded(tail, t + d) <==> Excluded(s, t) && p <= t)
      && (Overridden(tail, t + d) <==> Overridden(s, t) && p < t)
      && (Overridden(tail, t + d) && e.reset == {} ==>
            SpanOf(Find(tail.overrides, t + d).value.body) == SpanOf(Find(s.overrides, t).value.body))
  {
    var d := TaskAnchor(s, e, p) - p;
    FindInKept(s.overrides, NotAt(p), t);
    TailMovesRest(WithoutOverrideAt(s, p), e, p, d, TaskFutureRule(s, e, p, d), newUid, NEW_TASK, t);
  }

  /** With a new rule the spun-off task has the grid of that rule from its own date on, and as many slots as
      the rule counts, whatever was left. */
  lemma NewRuleTaskSplit(s: Series, e: Edit, p: int, newUid: string, t: int, m: nat)
    requires IsRecurring(s) && e.rule.Some? && HasSlot(s, p)
    ensures var tail := TaskTail(s, e, p, newUid);
      && (HasSlot(TaskHead(s, p), t) <==> HasSlot(s, t) && t < p)
      && (HasSlot(tail, t) <==> NewAnchor(e).Some? && OnGrid(NewAnchor(e).value, e.rule.value, t))
      && (NewAnchor(e).Some? && e.rule.value.bound == Count(m) ==> |SlotSet(tail)| == m)
  {
    TaskHeadShowsEarlier(s, p, t);
    TailSlots(WithoutOverrideAt(s, p), e, p, TaskAnchor(s, e, p) - p, e.rule.value, newUid, NEW_TASK, t);
    if NewAnchor(e).Some? && e.rule.value.bound == Count(m) {
      SlotSetSize(TaskTail(s, e, p, newUid), m);
    }
  }

  /** That division is right iff the anchors agree: otherwise the spun-off slots are not the later ones
      moved, while overrides and exclusions are. */
  lemma TaskSplitIsRightIff(s: Series, e: Edit, p: int, newUid: string)
    requires IsRecurring(s) && e.rule.None? && HasSlot(s, p) && !Excluded(s, p)
    ensures ContinuesFrom(s, p, TaskTail(s, e, p, newUid), TaskAnchor(s, e, p) - p) <==> AnchorsAgree(s, e, p)
  {
    var d := TaskAnchor(s, e, p) - p;
    var tail := TaskTail(s, e, p, newUid);
    if AnchorsAgree(s, e, p) {
      forall t ensures HasSlot(tail, t + d) <==> HasSlot(s, t) && p <= t {
        TaskTailShowsLater(s, e, p, newUid, t);
      }
      assert ContinuesFrom(s, p, tail, d);
    } else if ContinuesFrom(s, p, tail, d) {
      ContinuationFixesAnchor(s, p, tail, d);
    }
  }

  /** At the first slot the task series is rewritten in place: slots and exclusions move along, the
      pivot shows the span asked for and other overrides stay where they are. */
  lemma TaskFirstMovesEverySlot(s: Series, e: Edit, t: int)
    requires IsRecurring(s) && e.rule.None?
    requires var p := AnchorOf(s.master.body).value; HasSlot(s, p) && !Excluded(s, p) && AnchorsAgree(s, e, p)
    ensures var p := AnchorOf(s.master.body).value;
      var d := TaskAnchor(s, e, p) - p;
      var s' := TaskFirst(s, e, p);
      && (HasSlot(s', t + d) <==> HasSlot(s, t))
      && (Excluded(s', t + d) <==> Excluded(s, t))
      && (Visible(s', t + d) <==> Visible(s, t))
      && (t == p ==> SpanAt(s', t + d) == Span(e.start, e.end))
      && (t != p && Overridden(s, t) && e.reset == {} ==> SpanAt(s', t + d) == SpanAt(s, t))
  {
    var p, rule := AnchorOf(s.master.body).value, s.master.rule.value;
    var s0 := WithoutOverrideAt(s, p);
    var d := TaskAnchor(s, e, p) - p;
    FindInKept(s.overrides, NotAt(p), t);
    TaskRuleAtFirst(s, e, d);
    assert TaskFirst(s, e, p) == Rewritten(s0, e, d, e.start, e.end, Some(ShiftedRule(rule, d)));
    assert HasSlot(s0, t) <==> HasSlot(s, t);
    RewritingCommutes(s0, e, d, e.start, e.end, ShiftedRule(rule, d), t);
  }

  lemma TaskRuleAtFirst(s: Series, e: Edit, d: int)
    requires IsRecurring(s) && e.rule.None? && HasSlot(s, AnchorOf(s.master.body).value)
    ensures TaskFutureRule(s, e, AnchorOf(s.master.body).value, d) == ShiftedRule(s.master.rule.value, d)
  {
    var p, rule := AnchorOf(s.master.body).value, s.master.rule.value;
    FirstSlotIsLive(s);
    assert Nth(p, rule.step, 0) == p;
    SlotsThroughAt(p, rule, 0);
  }

  lemma TaskFirstIsRightIff(s: Series, e: Edit)
    requires IsRecurring(s) && e.rule.None?
    requires var p := AnchorOf(s.master.body).value; HasSlot(s, p) && !Excluded(s, p)
    ensures var p := AnchorOf(s.master.body).value;
      ContinuesFrom(s, p, TaskFirst(s, e, p), TaskAnchor(s, e, p) - p) <==> AnchorsAgree(s, e, p)
  {
    var p := AnchorOf(s.master.body).value;
    var d := TaskAnchor(s, e, p) - p;
    var s' := TaskFirst(s, e, p);
    if AnchorsAgree(s, e, p) {
      forall t ensures HasSlot(s', t + d) <==> HasSlot(s, t) && p <= t {
        TaskFirstMovesEverySlot(s, e, t);
        if HasSlot(s, t) {
          FirstSlotBelow(s, t);
        }
      }
      assert ContinuesFrom(s, p, s', d);
    } else if ContinuesFrom(s, p, s', d) {
      ContinuationFixesAnchor(s, p, s', d);
    }
  }

  /** Both parts keep their overrides on slots of their own if the anchors agree. In general the part
      that stays always does, and the spun-off one iff it is dated and the migrated overrides meet its
      grid. */
  lemma TaskSplitKeepsWellFormedIff(s: Series, e: Edit, p: int, newUid: string)
    requires WellFormed(s) && HasSlot(s, p)
    ensures var d := TaskAnchor(s, e, p) - p;
      && WellFormed(TaskHead(s, p))
      && (e.rule.None? && AnchorsAgree(s, e, p) ==> WellFormed(TaskTail(s, e, p, newUid)))
      && (WellFormed(TaskTail(s, e, p, newUid)) <==>
            NewAnchor(e).Some? && LaterMeetGrid(s.overrides, p, NewAnchor(e).value, TaskFutureRule(s, e, p, d), d))
  {
    TaskTailKeepsWellFormedIff(s, e, p, newUid);
    DroppingKeepsWellFormed(s, p);
    assert HasSlot(WithoutOverrideAt(s, p), p);
    HeadKeepsWellFormed(WithoutOverrideAt(s, p), p);
    if e.rule.None? && AnchorsAgree(s, e, p) {
      TailKeepsWellFormed(WithoutOverrideAt(s, p), e, p, TaskAnchor(s, e, p) - p, newUid, NEW_TASK);
    }
  }

  lemma TaskTailKeepsWellFormedIff(s: Series, e: Edit, p: int, newUid: string)
    requires WellFormed(s)
    ensures var d := TaskAnchor(s, e, p) - p;
      WellFormed(TaskTail(s, e, p, newUid)) <==>
        NewAnchor(e).Some? && LaterMeetGrid(s.overrides, p, NewAnchor(e).value, TaskFutureRule(s, e, p, d), d)
  {
    var d := TaskAnchor(s, e, p) - p;
    CutTailKeepsWellFormedIff(s, e, p, d, TaskFutureRule(s, e, p, d), newUid, NEW_TASK);
  }

  /** The series rewritten in place is well-formed iff it is dated and the overrides that stay meet its
      grid. */
  lemma TaskFirstKeepsWellFormedIff(s: Series, e: Edit, p: int)
    requires WellFormed(s)
    ensures var d := TaskAnchor(s, e, p) - AnchorOf(s.master.body).value;
      WellFormed(TaskFirst(s, e, p)) <==>
        NewAnchor(e).Some? && KeptMeetGrid(s.overrides, NotAt(p), NewAnchor(e).value, TaskFutureRule(s, e, p, d), d)
  {
    var d := TaskAnchor(s, e, p) - AnchorOf(s.master.body).value;
    var rule := TaskFutureRule(s, e, p, d);
    assert AnchorOf(TaskFirst(s, e, p).master.body) == NewAnchor(e);
    if NewAnchor(e).Some? {
      DroppingKeepsWellFormed(s, p);
      KeptMeetGridIff(s.overrides, NotAt(p), NewAnchor(e).value, rule, d);
      RewritingKeepsWellFormedIff(WithoutOverrideAt(s, p), e, d, e.start, e.end, rule);
    }
  }

  lemma TaskFirstKeepsWellFormed(s: Series, e: Edit)
    requires WellFormed(s) && e.rule.None?
    requires var p := AnchorOf(s.master.body).value; HasSlot(s, p) && AnchorsAgree(s, e, p)
    ensures WellFormed(TaskFirst(s, e, AnchorOf(s.master.body).value))
  {
    var p := AnchorOf(s.master.body).value;
    var d := TaskAnchor(s, e, p) - p;
    DroppingKeepsWellFormed(s, p);
    TaskRuleAtFirst(s, e, d);
    RewritingKeepsWellFormed(WithoutOverrideAt(s, p), e, d, e.start, e.end, ShiftedRule(s.master.rule.value, d));
  }
}
