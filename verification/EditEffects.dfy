/** What an edit does to each property of the components of a resource, displayed or not. The predicates
    name the properties one by one; the lemmas say which of them hold of the pieces edits are made of. */
module EditEffects {
  import opened Lists
  import opened Recurrence
  import opened Alarms
  import opened CalendarObject
  import opened Expansion

  // ----- Properties -----

  /** Reminders that an edit brings stand after everything the editor may not touch; without any, the alarms
      stay. */
  predicate TakesReminders(before: seq<Sub>, e: Edit, hasEnd: bool, after: seq<Sub>) {
    match e.reminders
    case None => after == before
    case Some(ts) =>
      && Untouchable(after) == Untouchable(before)
      && Readings(after) == Readings(Untouchable(before)) + RewritableAll(ts, hasEnd)
  }

  /** A master takes the texts, reminders and priority of an edit; its uid, completion and kind of day stay. */
  predicate MasterTakes(m: Master, e: Edit, m': Master) {
    && m'.allDay == m.allDay
    && m'.body.uid == m.body.uid
    && m'.body.duration == None
    && m'.body.title == e.title && m'.body.location == e.location && m'.body.description == e.description
    && m'.body.progress == m.body.progress
    && m'.body.priority == (match e.priority case Untouched => m.body.priority case SetTo(value) => value)
    && TakesReminders(m.body.subs, e, m'.body.end.Some?, m'.body.subs)
  }

  /** The master of a spun-off series has what the edit says and, of the old one, the kind of day and the
      alarms. */
  predicate MasterStartsAnew(m: Master, e: Edit, newUid: string, progress: Progress, m': Master) {
    && m'.allDay == m.allDay
    && m'.body.uid == newUid
    && m'.body.start == e.start && m'.body.end == e.end && m'.body.duration == None
    && m'.body.title == e.title && m'.body.location == e.location && m'.body.description == e.description
    && m'.body.progress == progress
    && m'.body.priority == (match e.priority case Untouched => None case SetTo(value) => value)
    && ReadsAnew(m.body.subs, e, m'.body.subs)
  }

  /** A spun-off series reads like the old one, or like what the editor may not touch of it followed by the
      reminders of the edit. */
  predicate ReadsAnew(before: seq<Sub>, e: Edit, after: seq<Sub>) {
    match e.reminders
    case None => Readings(after) == Readings(before)
    case Some(ts) => Readings(after) == Readings(Untouchable(before)) + RewritableAll(ts, e.end.Some?)
  }

  /** An override keeps what is not to be reset, and takes the values of the series for what is. */
  predicate OverrideTakes(o: Override, e: Edit, d: int, uid: Option<string>, start: Option<int>, end: Option<int>,
                          o': Override)
  {
    && o'.rid == o.rid + d
    && o'.body.uid == (if uid.Some? then uid.value else o.body.uid)
    && o'.body.duration == o.body.duration && o'.body.progress == o.body.progress
    && SpanTaken(o.body, e, o'.rid, start, end, o'.body)
    && FieldsTaken(o.body, e, o'.body)
    && AlarmsTaken(o.body, e, o'.body)
  }

  /** A time reset puts it on its slot with the length of the span `start`..`end`. */
  predicate SpanTaken(b: Body, e: Edit, slot: int, start: Option<int>, end: Option<int>, b': Body) {
    if Time !in e.reset then b'.start == b.start && b'.end == b.end
    else
      && b'.start == Some(slot)
      && b'.end == if start.Some? && end.Some? then Some(slot + end.value - start.value) else None
  }

  predicate FieldsTaken(b: Body, e: Edit, b': Body) {
    && b'.title == (if Title in e.reset then e.title else b.title)
    && b'.location == (if Location in e.reset then e.location else b.location)
    && b'.description == (if Description in e.reset then e.description else b.description)
    && b'.priority == (if Priority in e.reset && e.priority.SetTo? then e.priority.value else b.priority)
  }

  predicate AlarmsTaken(b: Body, e: Edit, b': Body) {
    if Alerts in e.reset then TakesReminders(b.subs, e, b'.end.Some? || b'.duration.Some?, b'.subs)
    else b'.subs == b.subs
  }

  /** The override of slot `t`, if there is one and it `stays`, is found `d` later with the edit taken, and
      there is no other. */
  predicate CarriedAt(s: Series, t: int, stays: bool, e: Edit, d: int, uid: Option<string>,
                      start: Option<int>, end: Option<int>, s': Series)
  {
    && (Overridden(s', t + d) <==> Overridden(s, t) && stays)
    && (Overridden(s, t) && stays ==>
          OverrideTakes(Find(s.overrides, t).value, e, d, uid, start, end, Find(s'.overrides, t + d).value))
  }

  /** A new override has what the edit says, the uid of the series and no priority. */
  predicate StandsAlone(s: Series, e: Edit, p: int, progress: Progress, o: Override) {
    && o.rid == p
    && o.body.uid == s.master.body.uid
    && o.body.start == e.start && o.body.end == e.end && o.body.duration == None
    && o.body.title == e.title && o.body.location == e.location && o.body.description == e.description
    && o.body.progress == progress && o.body.priority == None
    && Readings(o.body.subs) == match e.reminders case None => [] case Some(ts) => RewritableAll(ts, e.end.Some?)
  }

  // ----- Pieces of edits -----

  lemma AppliedTakesReminders(subs: seq<Sub>, e: Edit, hasEnd: bool)
    ensures TakesReminders(subs, e, hasEnd, Applied(subs, e.reminders, hasEnd))
  {
    if e.reminders.Some? {
      ApplyKeepsUntouchable(subs, e.reminders, hasEnd);
      ReadingsAfterApply(subs, e.reminders.value, hasEnd);
    }
  }

  lemma CarriedTakes(o: Override, e: Edit, d: int, uid: Option<string>, start: Option<int>, end: Option<int>)
    ensures OverrideTakes(o, e, d, uid, start, end, Carried(o, e, d, uid, start, end))
  {
    ResetTakes(Rebound(o, d, uid), e, start, end);
  }

  lemma ResetTakes(o: Override, e: Edit, start: Option<int>, end: Option<int>)
    ensures OverrideTakes(o, e, 0, None, start, end, ResetTo(o, e, start, end))
  {
    var o' := ResetTo(o, e, start, end);
    assert FieldsTaken(o.body, e, o'.body);
    assert SpanTaken(o.body, e, o.rid, start, end, o'.body);
    ResetTakesAlarms(o, e, start, end);
  }

  lemma ResetTakesAlarms(o: Override, e: Edit, start: Option<int>, end: Option<int>)
    ensures AlarmsTaken(o.body, e, ResetTo(o, e, start, end).body)
  {
    var o' := ResetTo(o, e, start, end);
    AppliedTakesReminders(o.body.subs, e, o'.body.end.Some? || o'.body.duration.Some?);
  }

  lemma RewritingTakes(s: Series, e: Edit, d: int, start: Option<int>, end: Option<int>, rule: Option<Rule>, t: int)
    ensures var s' := Rewritten(s, e, d, start, end, rule);
      && MasterTakes(s.master, e, s'.master)
      && s'.master.body.start == start && s'.master.body.end == end
      && (Excluded(s', t + d) <==> Excluded(s, t))
      && CarriedAt(s, t, true, e, d, None, start, end, s')
  {
    AppliedTakesReminders(s.master.body.subs, e, end.Some?);
    ShiftedTimes(s.master.exdates, d, t);
    MovedOverrides(s.overrides, e, d, None, start, end, t);
    if Overridden(s, t) {
      CarriedTakes(Find(s.overrides, t).value, e, d, None, start, end);
    }
  }

  /** As every edit with scope `thisfuture` has it, the override at the pivot gives way first. */
  lemma RewritingFirstTakes(s: Series, e: Edit, p: int, d: int, start: Option<int>, end: Option<int>,
                            rule: Option<Rule>, t: int)
    ensures var s' := Rewritten(WithoutOverrideAt(s, p), e, d, start, end, rule);
      && MasterTakes(s.master, e, s'.master)
      && s'.master.body.start == start && s'.master.body.end == end
      && (Excluded(s', t + d) <==> Excluded(s, t))
      && CarriedAt(s, t, t != p, e, d, None, start, end, s')
  {
    RewritingTakes(WithoutOverrideAt(s, p), e, d, start, end, rule, t);
    FindInKept(s.overrides, NotAt(p), t);
  }

  lemma TailMasterTakes(s: Series, e: Edit, p: int, d: int, rule: Rule, newUid: string, progress: Progress)
    ensures MasterStartsAnew(s.master, e, newUid, progress, Tail(s, e, p, d, rule, newUid, progress).master)
  {
    CarriedAlarmsRead(s, e);
  }

  lemma CarriedAlarmsRead(s: Series, e: Edit)
    ensures ReadsAnew(s.master.body.subs, e, Applied(OnlyAlarms(s.master.body.subs), e.reminders, e.end.Some?))
  {
    var alarms := OnlyAlarms(s.master.body.subs);
    OnlyAlarmsReadTheSame(s.master.body.subs);
    if e.reminders.Some? {
      ReadingsAfterApply(alarms, e.reminders.value, e.end.Some?);
    }
  }

  lemma {:induction false} OnlyAlarmsReadTheSame(subs: seq<Sub>)
    ensures Readings(OnlyAlarms(subs)) == Readings(subs)
    ensures Readings(Untouchable(OnlyAlarms(subs))) == Readings(Untouchable(subs))
  {
    if subs != [] {
      var front, last := subs[..|subs| - 1], subs[|subs| - 1];
      OnlyAlarmsReadTheSame(front);
      if last.Valarm? {
        ReadingsOfConcat(OnlyAlarms(front), [last]);
        UntouchableOfConcat(OnlyAlarms(front), [last]);
        ReadingsOfConcat(Untouchable(OnlyAlarms(front)), Untouchable([last]));
        ReadingsOfConcat(Untouchable(front), Untouchable([last]));
        assert [last][..0] == [];
      } else {
        ReadingsOfConcat(Untouchable(front), [last]);
        assert [last][..0] == [];
      }
    }
  }

  lemma TailTakes(s: Series, e: Edit, p: int, d: int, rule: Rule, newUid: string, progress: Progress, t: int)
    ensures var s' := Tail(WithoutOverrideAt(s, p), e, p, d, rule, newUid, progress);
      && MasterStartsAnew(s.master, e, newUid, progress, s'.master)
      && (Excluded(s', t + d) <==> Excluded(s, t) && p <= t)
      && CarriedAt(s, t, p < t, e, d, Some(newUid), e.start, e.end, s')
  {
    TailMasterTakes(WithoutOverrideAt(s, p), e, p, d, rule, newUid, progress);
    TailCarries(s, e, p, d, rule, newUid, progress, t);
  }

  lemma TailCarries(s: Series, e: Edit, p: int, d: int, rule: Rule, newUid: string, progress: Progress, t: int)
    ensures var s' := Tail(WithoutOverrideAt(s, p), e, p, d, rule, newUid, progress);
      && (Excluded(s', t + d) <==> Excluded(s, t) && p <= t)
      && CarriedAt(s, t, p < t, e, d, Some(newUid), e.start, e.end, s')
  {
    TailMovesRest(WithoutOverrideAt(s, p), e, p, d, rule, newUid, progress, t);
    FindInKept(s.overrides, NotAt(p), t);
    if Overridden(s, t) {
      CarriedTakes(Find(s.overrides, t).value, e, d, Some(newUid), e.start, e.end);
    }
  }

  /** The part that stays keeps its master but for the rule, and its earlier exclusions and overrides. */
  predicate KeepsBefore(s: Series, p: int, t: int, s': Series) {
    && s'.master.allDay == s.master.allDay && s'.master.body == s.master.body
    && (Excluded(s', t) <==> Excluded(s, t) && t < p)
    && Find(s'.overrides, t) == if t < p then Find(s.overrides, t) else None
  }

  lemma HeadKeeps(s: Series, base: int, p: int, t: int)
    requires s.master.rule.Some?
    ensures KeepsBefore(s, p, t, Head(WithoutOverrideAt(s, p), base, p))
  {
    KeptTimes(s.master.exdates, Below(p), t);
    FindInKept(s.overrides, NotAt(p), t);
    FindInKept(KeepRids(s.overrides, NotAt(p)), Below(p), t);
  }

  lemma DetachingTakes(s: Series, e: Edit, p: int, progress: Progress, t: int)
    ensures var s' := WithOverride(s, Detached(s, p, e, progress));
      && s'.master == s.master
      && Overridden(s', p) && StandsAlone(s, e, p, progress, Find(s'.overrides, p).value)
      && (t != p ==> Find(s'.overrides, t) == Find(s.overrides, t))
  {
    var o := Detached(s, p, e, progress);
    DetachingChangesOneSlot(s, o, p);
    DetachingChangesOneSlot(s, o, t);
    if e.reminders.Some? {
      ReadingsAfterApply([], e.reminders.value, e.end.Some?);
    }
  }
}
