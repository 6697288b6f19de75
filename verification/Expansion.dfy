/** What a resource shows: at each slot the override if there is one, nothing if the slot is
    excluded, otherwise the master's fields. Edits of events are related through it. */
module Expansion {
  import opened Lists
  import opened Recurrence
  import opened CalendarObject

  // ----- The expansion -----

  ghost predicate HasSlot(s: Series, t: int) {
    var m := s.master;
    m.rule.Some? && AnchorOf(m.body).Some? && IsSlot(AnchorOf(m.body).value, m.rule.value, t)
  }

  predicate Overridden(s: Series, t: int) {
    Find(s.overrides, t).Some?
  }

  predicate Excluded(s: Series, t: int) {
    t in s.master.exdates
  }

  /** Is there an occurrence for slot `t`? */
  ghost predicate Visible(s: Series, t: int) {
    Overridden(s, t) || (HasSlot(s, t) && !Excluded(s, t))
  }

  datatype Shown = Shown(start: Option<int>, end: Option<int>, title: string, location: string, description: string)

  function DisplayedEnd(b: Body): Option<int> {
    if b.end.Some? then b.end
    else if b.duration.Some? then (if b.start.Some? then Some(b.start.value + b.duration.value) else None)
    else None
  }

  function DisplayedTitle(title: string): string {
    if title == "" then "(No title)" else title
  }

  function OrElse(own: string, series: string): string {
    if own == "" then series else own
  }

  /** An override shows its own span and texts; a missing location or description is the master's. */
  function ShownOverride(b: Body, location: string, description: string): Shown {
    Shown(b.start, DisplayedEnd(b), DisplayedTitle(b.title),
          OrElse(b.location, location), OrElse(b.description, description))
  }

  /** The plain occurrence at a slot: the master, moved there. */
  function ShownPlain(s: Series, t: int): Shown {
    var b := s.master.body;
    var d := if AnchorOf(b).Some? then t - AnchorOf(b).value else 0;
    Shown(Plus(b.start, d), Plus(DisplayedEnd(b), d), DisplayedTitle(b.title), b.location, b.description)
  }

  function ShownAt(s: Series, t: int): Shown {
    match Find(s.overrides, t)
    case Some(o) => ShownOverride(o.body, s.master.body.location, s.master.body.description)
    case None => ShownPlain(s, t)
  }

  /** An occurrence with the fields of an edit. */
  function ShownEdit(e: Edit, start: int, length: int): Shown {
    Shown(Some(start), Some(start + length), DisplayedTitle(e.title), e.location, e.description)
  }

  // ----- Well-formed resources -----

  ghost predicate DistinctRids(ovs: seq<Override>) {
    forall i, j | 0 <= i < j < |ovs| :: ovs[i].rid != ovs[j].rid
  }

  /** A recurring series whose overrides carry its uid and have distinct RECURRENCE-IDs, each on a
      slot that is not excluded. */
  ghost predicate WellFormed(s: Series) {
    && s.master.rule.Some? && AnchorOf(s.master.body).Some?
    && DistinctRids(s.overrides)
    && forall o | o in s.overrides :: Fits(s, o)
  }

  ghost predicate Fits(s: Series, o: Override) {
    o.body.uid == s.master.body.uid && HasSlot(s, o.rid) && !Excluded(s, o.rid)
  }

  // ----- Looking up overrides -----

  lemma {:induction false} FindFinds(ovs: seq<Override>, t: int)
    ensures Find(ovs, t).Some? <==> exists o :: o in ovs && o.rid == t
    ensures Find(ovs, t).Some? ==> Find(ovs, t).value in ovs && Find(ovs, t).value.rid == t
  {
    if ovs != [] && ovs[0].rid != t {
      FindFinds(ovs[1..], t);
      if o: Override :| o in ovs && o.rid == t {
        assert o in ovs[1..];
      }
    }
  }

  lemma {:induction false} FindByAnchorFinds(ovs: seq<Override>, t: int)
    ensures FindByAnchor(ovs, t).Some? <==> exists o :: o in ovs && AnchorOf(o.body) == Some(t)
    ensures FindByAnchor(ovs, t).Some? ==>
      FindByAnchor(ovs, t).value in ovs && AnchorOf(FindByAnchor(ovs, t).value.body) == Some(t)
  {
    if ovs != [] && AnchorOf(ovs[0].body) != Some(t) {
      FindByAnchorFinds(ovs[1..], t);
      if o: Override :| o in ovs && AnchorOf(o.body) == Some(t) {
        assert o in ovs[1..];
      }
    }
  }

  lemma {:induction false} FindInConcat(a: seq<Override>, b: seq<Override>, t: int)
    ensures Find(a + b, t) == if Find(a, t).Some? then Find(a, t) else Find(b, t)
  {
    if a == [] {
      assert a + b == b;
    } else {
      assert (a + b)[1..] == a[1..] + b;
      if a[0].rid != t {
        FindInConcat(a[1..], b, t);
      }
    }
  }

  lemma {:induction false} FindInKept(ovs: seq<Override>, cut: Cut, t: int)
    ensures Find(KeepRids(ovs, cut), t) == if Keeps(cut, t) then Find(ovs, t) else None
  {
    if ovs != [] {
      var front, last := ovs[..|ovs| - 1], [ovs[|ovs| - 1]];
      FindInKept(front, cut, t);
      FindInConcat(front, last, t);
      FindInConcat(KeepRids(front, cut), last, t);
      assert ovs == front + last;
    }
  }

  lemma {:induction false} FindInRebound(ovs: seq<Override>, d: int, newUid: Option<string>, t: int)
    ensures Find(ReboundAll(ovs, d, newUid), t + d)
         == match Find(ovs, t) case None => None case Some(o) => Some(Rebound(o, d, newUid))
  {
    if ovs != [] && ovs[0].rid != t {
      FindInRebound(ovs[1..], d, newUid, t);
      assert ReboundAll(ovs, d, newUid)[1..] == ReboundAll(ovs[1..], d, newUid);
    }
  }

  lemma {:induction false} FindInReset(ovs: seq<Override>, e: Edit, start: Option<int>, end: Option<int>, t: int)
    ensures Find(MaybeReset(ovs, e, start, end), t)
         == match Find(ovs, t)
            case None => None
            case Some(o) => Some(if e.reset == {} then o else ResetTo(o, e, start, end))
  {
    if e.reset != {} && ovs != [] && ovs[0].rid != t {
      FindInReset(ovs[1..], e, start, end, t);
      assert ResetAll(ovs, e, start, end)[1..] == ResetAll(ovs[1..], e, start, end);
    }
  }

  lemma {:induction false} KeptTimes(ts: seq<int>, cut: Cut, t: int)
    ensures t in KeepTimes(ts, cut) <==> t in ts && Keeps(cut, t)
  {
    if ts != [] {
      KeptTimes(ts[..|ts| - 1], cut, t);
      assert ts == ts[..|ts| - 1] + [ts[|ts| - 1]];
    }
  }

  lemma ShiftedTimes(ts: seq<int>, d: int, t: int)
    ensures t + d in ShiftTimes(ts, d) <==> t in ts
  {
    if t in ts {
      var i :| 0 <= i < |ts| && ts[i] == t;
      assert ShiftTimes(ts, d)[i] == t + d;
    }
  }

  lemma {:induction false} KeptRidsStayDistinct(ovs: seq<Override>, cut: Cut)
    requires DistinctRids(ovs)
    ensures DistinctRids(KeepRids(ovs, cut))
  {
    if ovs != [] {
      var n := |ovs| - 1;
      KeptRidsStayDistinct(ovs[..n], cut);
      KeepRidsIsFilter(ovs[..n], cut);
    }
  }

  // ----- A series that moves -----

  /** The override a move leaves at `t + d` for the one at `t`. */
  function Carried(o: Override, e: Edit, d: int, newUid: Option<string>,
                   start: Option<int>, end: Option<int>): Override
  {
    var moved := Rebound(o, d, newUid);
    if e.reset == {} then moved else ResetTo(moved, e, start, end)
  }

  lemma MovedOverrides(ovs: seq<Override>, e: Edit, d: int, newUid: Option<string>,
                       start: Option<int>, end: Option<int>, t: int)
    ensures Find(MaybeReset(ReboundAll(ovs, d, newUid), e, start, end), t + d)
         == match Find(ovs, t) case None => None case Some(o) => Some(Carried(o, e, d, newUid, start, end))
  {
    FindInRebound(ovs, d, newUid, t);
    FindInReset(ReboundAll(ovs, d, newUid), e, start, end, t + d);
  }

  /** Slots, overrides and exclusions of a rewritten series are the old ones, `d` later. */
  lemma RewritingCommutes(s: Series, e: Edit, d: int, start: Option<int>, end: Option<int>, rule: Rule, t: int)
    requires IsRecurring(s)
    requires AnchorOf(WithFields(s.master.body, e, start, end)) == Some(AnchorOf(s.master.body).value + d)
    requires rule == ShiftedRule(s.master.rule.value, d)
    ensures var s' := Rewritten(s, e, d, start, end, Some(rule));
      && (HasSlot(s', t + d) <==> HasSlot(s, t))
      && (Excluded(s', t + d) <==> Excluded(s, t))
      && Find(s'.overrides, t + d)
         == (match Find(s.overrides, t) case None => None case Some(o) => Some(Carried(o, e, d, None, start, end)))
  {
    ShiftMovesEverySlot(AnchorOf(s.master.body).value, s.master.rule.value, d, t);
    ShiftedTimes(s.master.exdates, d, t);
    MovedOverrides(s.overrides, e, d, None, start, end, t);
  }

  ghost predicate IsRecurring(s: Series) {
    s.master.rule.Some? && AnchorOf(s.master.body).Some?
  }

  /** Every override lies on the grid of a rule once it is moved by `d`. */
  ghost predicate MeetGrid(ovs: seq<Override>, anchor: int, rule: Rule, d: int) {
    forall o | o in ovs :: OnGrid(anchor, rule, o.rid + d)
  }

  /** The same of those that a cut keeps. */
  ghost predicate KeptMeetGrid(ovs: seq<Override>, cut: Cut, anchor: int, rule: Rule, d: int) {
    forall o | o in ovs && Keeps(cut, o.rid) :: OnGrid(anchor, rule, o.rid + d)
  }

  lemma KeptMeetGridIff(ovs: seq<Override>, cut: Cut, anchor: int, rule: Rule, d: int)
    ensures MeetGrid(KeepRids(ovs, cut), anchor, rule, d) <==> KeptMeetGrid(ovs, cut, anchor, rule, d)
  {
    KeepRidsIsFilter(ovs, cut);
  }

  /** A series whose overrides come from others one by one is well-formed iff those meet its grid. */
  lemma AllFitIff(s: Series, before: seq<Override>, anchor: int, rule: Rule, d: int)
    requires IsRecurring(s) && DistinctRids(s.overrides) && |s.overrides| == |before|
    requires forall i | 0 <= i < |before| :: Fits(s, s.overrides[i]) <==> OnGrid(anchor, rule, before[i].rid + d)
    ensures WellFormed(s) <==> MeetGrid(before, anchor, rule, d)
  {
    if WellFormed(s) {
      forall o | o in before ensures OnGrid(anchor, rule, o.rid + d) {
        var i :| 0 <= i < |before| && before[i] == o;
        assert s.overrides[i] in s.overrides;
      }
    }
    if MeetGrid(before, anchor, rule, d) {
      forall o | o in s.overrides ensures Fits(s, o) {
        var i :| 0 <= i < |before| && s.overrides[i] == o;
        assert before[i] in before;
      }
    }
  }

  /** Whatever the new anchor and rule, rewriting leaves the series well-formed iff every override
      was rebound to the new grid. */
  lemma RewritingKeepsWellFormedIff(s: Series, e: Edit, d: int, start: Option<int>, end: Option<int>, rule: Rule)
    requires WellFormed(s) && AnchorOf(WithFields(s.master.body, e, start, end)).Some?
    ensures var anchor := AnchorOf(WithFields(s.master.body, e, start, end)).value;
      WellFormed(Rewritten(s, e, d, start, end, Some(rule))) <==> MeetGrid(s.overrides, anchor, rule, d)
  {
    var anchor := AnchorOf(WithFields(s.master.body, e, start, end)).value;
    var s' := Rewritten(s, e, d, start, end, Some(rule));
    forall i | 0 <= i < |s.overrides|
      ensures s'.overrides[i].rid == s.overrides[i].rid + d
      ensures Fits(s', s'.overrides[i]) <==> OnGrid(anchor, rule, s.overrides[i].rid + d)
    {
      var o := s.overrides[i];
      assert Fits(s, o);
      ShiftedTimes(s.master.exdates, d, o.rid);
      IsSlotClosedForm(anchor, rule, o.rid + d);
    }
    AllFitIff(s', s.overrides, anchor, rule, d);
  }

  lemma RewritingKeepsWellFormed(s: Series, e: Edit, d: int, start: Option<int>, end: Option<int>, rule: Rule)
    requires WellFormed(s)
    requires AnchorOf(WithFields(s.master.body, e, start, end)) == Some(AnchorOf(s.master.body).value + d)
    requires rule == ShiftedRule(s.master.rule.value, d)
    ensures WellFormed(Rewritten(s, e, d, start, end, Some(rule)))
  {
    var anchor := AnchorOf(s.master.body).value;
    forall o | o in s.overrides ensures OnGrid(anchor + d, rule, o.rid + d) {
      assert Fits(s, o);
      ShiftMovesEverySlot(anchor, s.master.rule.value, d, o.rid);
      IsSlotClosedForm(anchor + d, rule, o.rid + d);
    }
    assert MeetGrid(s.overrides, anchor + d, rule, d);
    RewritingKeepsWellFormedIff(s, e, d, start, end, rule);
  }

  // ----- A series that is split -----

  lemma HeadKeepsEarlier(s: Series, p: int, t: int)
    requires IsRecurring(s)
    requires p <= AnchorOf(s.master.body).value || HasSlot(s, AnchorOf(s.master.body).value)
    ensures var h := Head(s, AnchorOf(s.master.body).value, p);
      && (HasSlot(h, t) <==> HasSlot(s, t) && t < p)
      && (Excluded(h, t) <==> Excluded(s, t) && t < p)
      && Find(h.overrides, t) == if t < p then Find(s.overrides, t) else None
  {
    FirstSlotIsLive(s);
    TruncateSlots(AnchorOf(s.master.body).value, s.master.rule.value, p, s.master.allDay, t);
    KeptTimes(s.master.exdates, Below(p), t);
    FindInKept(s.overrides, Below(p), t);
  }

  lemma FirstSlotIsLive(s: Series)
    requires IsRecurring(s)
    ensures var a := AnchorOf(s.master.body).value; HasSlot(s, a) ==> Live(a, s.master.rule.value, 0)
  {
    var a, rule := AnchorOf(s.master.body).value, s.master.rule.value;
    if HasSlot(s, a) {
      var i: nat :| Nth(a, rule.step, i) == a && Live(a, rule, i);
      LiveIsPrefix(a, rule, 0, i);
    }
  }

  lemma FirstSlotBelow(s: Series, t: int)
    requires HasSlot(s, t)
    ensures AnchorOf(s.master.body).value <= t
    ensures HasSlot(s, AnchorOf(s.master.body).value)
  {
    var a, rule := AnchorOf(s.master.body).value, s.master.rule.value;
    var i: nat :| Nth(a, rule.step, i) == t && Live(a, rule, i);
    LiveIsPrefix(a, rule, 0, i);
    NthOrdered(a, rule.step, 0, i);
    assert Nth(a, rule.step, 0) == a && Live(a, rule, 0);
  }

  /** Exclusions and overrides of a spun-off series are the later ones, `d` later, under any rule. */
  lemma TailMovesRest(s: Series, e: Edit, p: int, d: int, rule: Rule, newUid: string, progress: Progress, t: int)
    ensures var tail := Tail(s, e, p, d, rule, newUid, progress);
      && (Excluded(tail, t + d) <==> Excluded(s, t) && p <= t)
      && Find(tail.overrides, t + d)
         == (if t < p then None else
             match Find(s.overrides, t)
             case None => None
             case Some(o) => Some(Carried(o, e, d, Some(newUid), e.start, e.end)))
  {
    KeptTimes(s.master.exdates, AtOrAfter(p), t);
    ShiftedTimes(KeepTimes(s.master.exdates, AtOrAfter(p)), d, t);
    FindInKept(s.overrides, AtOrAfter(p), t);
    MovedOverrides(KeepRids(s.overrides, AtOrAfter(p)), e, d, Some(newUid), e.start, e.end, t);
  }

  /** Its slots are the grid of its rule from its own date on. */
  lemma TailSlots(s: Series, e: Edit, p: int, d: int, rule: Rule, newUid: string, progress: Progress, t: int)
    ensures HasSlot(Tail(s, e, p, d, rule, newUid, progress), t)
        <==> NewAnchor(e).Some? && OnGrid(NewAnchor(e).value, rule, t)
  {
    var tail := Tail(s, e, p, d, rule, newUid, progress);
    assert AnchorOf(tail.master.body) == NewAnchor(e) && tail.master.rule == Some(rule);
    if NewAnchor(e).Some? {
      IsSlotClosedForm(NewAnchor(e).value, rule, t);
    }
  }

  /** With the rule carried over, these are the later slots, `d` later. */
  lemma TailMovesLater(s: Series, e: Edit, p: int, d: int, newUid: string, progress: Progress, t: int)
    requires HasSlot(s, p) && NewAnchor(e) == Some(p + d)
    ensures var rule := ContinuedRule(AnchorOf(s.master.body).value, s.master.rule.value, p, d);
      HasSlot(Tail(s, e, p, d, rule, newUid, progress), t + d) <==> HasSlot(s, t) && p <= t
  {
    ContinuationMovesLaterSlots(AnchorOf(s.master.body).value, s.master.rule.value, p, d, t);
  }

  lemma HeadKeepsWellFormed(s: Series, p: int)
    requires WellFormed(s) && HasSlot(s, p)
    ensures WellFormed(Head(s, AnchorOf(s.master.body).value, p))
  {
    FirstSlotBelow(s, p);
    var h := Head(s, AnchorOf(s.master.body).value, p);
    KeptRidsStayDistinct(s.overrides, Below(p));
    forall o | o in h.overrides ensures Fits(h, o) {
      KeepRidsIsFilter(s.overrides, Below(p));
      assert Fits(s, o);
      HeadKeepsEarlier(s, p, o.rid);
    }
  }

  /** Where the slots of an edited series start: at the edit's own start, or its end without one. */
  function NewAnchor(e: Edit): Option<int> {
    if e.start.Some? then e.start else e.end
  }

  /** Whatever rule the spun-off series gets and wherever it is anchored, it is well-formed iff it has
      an anchor and every migrated override was rebound to its grid. */
  lemma TailKeepsWellFormedIff(s: Series, e: Edit, p: int, d: int, rule: Rule, newUid: string, progress: Progress)
    requires WellFormed(s)
    ensures WellFormed(Tail(s, e, p, d, rule, newUid, progress)) <==>
      NewAnchor(e).Some? && KeptMeetGrid(s.overrides, AtOrAfter(p), NewAnchor(e).value, rule, d)
  {
    if NewAnchor(e).Some? {
      var kept := KeepRids(s.overrides, AtOrAfter(p));
      MigratedFit(s, e, p, d, rule, newUid, progress);
      MigratedStayDistinct(s, e, p, d, rule, newUid, progress);
      KeptMeetGridIff(s.overrides, AtOrAfter(p), NewAnchor(e).value, rule, d);
      AllFitIff(Tail(s, e, p, d, rule, newUid, progress), kept, NewAnchor(e).value, rule, d);
    }
  }

  lemma MigratedStayDistinct(s: Series, e: Edit, p: int, d: int, rule: Rule, newUid: string, progress: Progress)
    requires DistinctRids(s.overrides)
    ensures DistinctRids(Tail(s, e, p, d, rule, newUid, progress).overrides)
  {
    KeptRidsStayDistinct(s.overrides, AtOrAfter(p));
  }

  lemma MigratedFit(s: Series, e: Edit, p: int, d: int, rule: Rule, newUid: string, progress: Progress)
    requires WellFormed(s) && NewAnchor(e).Some?
    ensures var kept, tail := KeepRids(s.overrides, AtOrAfter(p)), Tail(s, e, p, d, rule, newUid, progress);
      && |tail.overrides| == |kept|
      && forall i | 0 <= i < |kept| ::
           Fits(tail, tail.overrides[i]) <==> OnGrid(NewAnchor(e).value, rule, kept[i].rid + d)
  {
    var kept, tail := KeepRids(s.overrides, AtOrAfter(p)), Tail(s, e, p, d, rule, newUid, progress);
    KeepRidsIsFilter(s.overrides, AtOrAfter(p));
    forall i | 0 <= i < |kept|
      ensures Fits(tail, tail.overrides[i]) <==> OnGrid(NewAnchor(e).value, rule, kept[i].rid + d)
    {
      assert kept[i] in kept;
      MigratedFitsIff(s, e, p, d, rule, newUid, progress, kept[i], tail.overrides[i]);
    }
  }

  lemma MigratedFitsIff(s: Series, e: Edit, p: int, d: int, rule: Rule, newUid: string, progress: Progress,
                        o: Override, o': Override)
    requires Fits(s, o) && NewAnchor(e).Some? && o'.rid == o.rid + d && o'.body.uid == newUid
    ensures Fits(Tail(s, e, p, d, rule, newUid, progress), o') <==> OnGrid(NewAnchor(e).value, rule, o.rid + d)
  {
    KeptTimes(s.master.exdates, AtOrAfter(p), o.rid);
    ShiftedTimes(KeepTimes(s.master.exdates, AtOrAfter(p)), d, o.rid);
    IsSlotClosedForm(NewAnchor(e).value, rule, o.rid + d);
    assert AnchorOf(Tail(s, e, p, d, rule, newUid, progress).master.body) == NewAnchor(e);
  }

  /** The overrides after `p`, as they are left when the one at `p` gives way. */
  ghost predicate LaterMeetGrid(ovs: seq<Override>, p: int, anchor: int, rule: Rule, d: int) {
    forall o | o in ovs && p < o.rid :: OnGrid(anchor, rule, o.rid + d)
  }

  lemma LaterMeetGridIff(ovs: seq<Override>, p: int, anchor: int, rule: Rule, d: int)
    ensures KeptMeetGrid(KeepRids(ovs, NotAt(p)), AtOrAfter(p), anchor, rule, d)
        <==> LaterMeetGrid(ovs, p, anchor, rule, d)
  {
    KeepRidsIsFilter(ovs, NotAt(p));
  }

  /** The same when the override at the pivot has given way, as every split has it. */
  lemma CutTailKeepsWellFormedIff(s: Series, e: Edit, p: int, d: int, rule: Rule, newUid: string, progress: Progress)
    requires WellFormed(s)
    ensures WellFormed(Tail(WithoutOverrideAt(s, p), e, p, d, rule, newUid, progress)) <==>
      NewAnchor(e).Some? && LaterMeetGrid(s.overrides, p, NewAnchor(e).value, rule, d)
  {
    DroppingKeepsWellFormed(s, p);
    TailKeepsWellFormedIff(WithoutOverrideAt(s, p), e, p, d, rule, newUid, progress);
    if NewAnchor(e).Some? {
      LaterMeetGridIff(s.overrides, p, NewAnchor(e).value, rule, d);
    }
  }

  lemma TailKeepsWellFormed(s: Series, e: Edit, p: int, d: int, newUid: string, progress: Progress)
    requires WellFormed(s) && HasSlot(s, p) && NewAnchor(e) == Some(p + d)
    ensures var rule := ContinuedRule(AnchorOf(s.master.body).value, s.master.rule.value, p, d);
      WellFormed(Tail(s, e, p, d, rule, newUid, progress))
  {
    var anchor, rule := AnchorOf(s.master.body).value, s.master.rule.value;
    forall o | o in s.overrides && p <= o.rid ensures OnGrid(p + d, ContinuedRule(anchor, rule, p, d), o.rid + d) {
      assert Fits(s, o);
      ContinuationMovesLaterSlots(anchor, rule, p, d, o.rid);
      IsSlotClosedForm(p + d, ContinuedRule(anchor, rule, p, d), o.rid + d);
    }
    assert KeptMeetGrid(s.overrides, AtOrAfter(p), p + d, ContinuedRule(anchor, rule, p, d), d);
    TailKeepsWellFormedIff(s, e, p, d, ContinuedRule(anchor, rule, p, d), newUid, progress);
  }

  /** The slots of `s'` are those of `s` from `p` on, `d` later. */
  ghost predicate ContinuesFrom(s: Series, p: int, s': Series, d: int) {
    forall t :: HasSlot(s', t + d) <==> HasSlot(s, t) && p <= t
  }

  /** Such a series starts where `p` was moved to. */
  lemma ContinuationFixesAnchor(s: Series, p: int, s': Series, d: int)
    requires HasSlot(s, p) && ContinuesFrom(s, p, s', d)
    ensures AnchorOf(s'.master.body) == Some(p + d)
  {
    assert HasSlot(s', p + d);
    FirstSlotBelow(s', p + d);
    var first := AnchorOf(s'.master.body).value;
    assert (first - d) + d == first;
    assert HasSlot(s, first - d) && p <= first - d;
  }

  // ----- Counting slots -----

  ghost function SlotSet(s: Series): (slots: set<int>)
    requires IsRecurring(s) && !s.master.rule.value.bound.Forever?
    ensures forall t :: t in slots <==> HasSlot(s, t)
  {
    var a, rule := AnchorOf(s.master.body).value, s.master.rule.value;
    var total: nat := match rule.bound case Count(n) => n case Until(last) => GridThrough(a, rule.step, last);
    assert forall i: nat :: i < total <==> Live(a, rule, i) by {
      forall i: nat ensures i < total <==> Live(a, rule, i) {
        if rule.bound.Until? {
          GridThroughCounts(a, rule.step, rule.bound.last, i);
        }
      }
    }
    set i: nat | i < total :: Nth(a, rule.step, i)
  }

  ghost function FirstNats(n: nat): (range: set<nat>)
    ensures |range| == n && forall i: nat :: i in range <==> i < n
  {
    if n == 0 then {} else FirstNats(n - 1) + {n - 1}
  }

  lemma SlotSetSize(s: Series, n: nat)
    requires IsRecurring(s) && !s.master.rule.value.bound.Forever?
    requires forall i: nat :: Live(AnchorOf(s.master.body).value, s.master.rule.value, i) <==> i < n
    ensures |SlotSet(s)| == n
  {
    var a, rule := AnchorOf(s.master.body).value, s.master.rule.value;
    var range, slot := FirstNats(n), (i: nat) => Nth(a, rule.step, i);
    forall i, j | i in range && j in range && slot(i) == slot(j) ensures i == j {
      NthOrdered(a, rule.step, i, j);
    }
    InjectiveImageSize(range, slot);
    forall t ensures t in SlotSet(s) <==> t in Image(range, slot) {
      if HasSlot(s, t) {
        var i: nat :| Nth(a, rule.step, i) == t && Live(a, rule, i);
        assert i in range && slot(i) == t;
      }
    }
    assert SlotSet(s) == Image(range, slot);
  }

  /** Cut at its slot number `k`, a series keeps `k` slots. */
  lemma HeadSize(s: Series, p: int)
    requires HasSlot(s, p)
    ensures var base, rule := AnchorOf(s.master.body).value, s.master.rule.value;
      0 < SlotsThrough(base, rule, p) && |SlotSet(Head(s, base, p))| == SlotsThrough(base, rule, p) - 1
  {
    var base, rule := AnchorOf(s.master.body).value, s.master.rule.value;
    var k: nat :| Nth(base, rule.step, k) == p && Live(base, rule, k);
    SlotsThroughAt(base, rule, k);
    LiveIsPrefix(base, rule, 0, k);
    forall i: nat ensures Live(base, Head(s, base, p).master.rule.value, i) <==> i < k {
      TruncateKeepsEarlierSlots(base, rule, p, s.master.allDay, i);
      NthOrdered(base, rule.step, i, k);
      if i < k {
        LiveIsPrefix(base, rule, i, k);
      }
    }
    SlotSetSize(Head(s, base, p), k);
  }

  // ----- One occurrence detached -----

  lemma DetachingChangesOneSlot(s: Series, o: Override, t: int)
    ensures Find(WithOverride(s, o).overrides, t) == if t == o.rid then Some(o) else Find(s.overrides, t)
  {
    FindInKept(s.overrides, NotAt(o.rid), t);
    FindInConcat(KeepRids(s.overrides, NotAt(o.rid)), [o], t);
  }

  lemma DetachingKeepsWellFormed(s: Series, o: Override)
    requires WellFormed(s) && Fits(s, o)
    ensures WellFormed(WithOverride(s, o))
  {
    KeptRidsStayDistinct(s.overrides, NotAt(o.rid));
    KeepRidsIsFilter(s.overrides, NotAt(o.rid));
    var s' := WithOverride(s, o);
    forall x | x in s'.overrides ensures Fits(s', x) {
      assert Fits(s, x);
    }
  }

  lemma DroppingKeepsWellFormed(s: Series, p: int)
    requires WellFormed(s)
    ensures WellFormed(WithoutOverrideAt(s, p))
  {
    KeptRidsStayDistinct(s.overrides, NotAt(p));
    KeepRidsIsFilter(s.overrides, NotAt(p));
    var s' := WithoutOverrideAt(s, p);
    forall x | x in s'.overrides ensures Fits(s', x) {
      assert Fits(s, x);
    }
  }

  // ----- Naming an occurrence -----

  /** The time an occurrence is anchored at: its override's own, or its slot. */
  function AnchorAt(s: Series, t: int): Option<int> {
    match Find(s.overrides, t)
    case Some(o) => AnchorOf(o.body)
    case None => Some(t)
  }

  /** `x` is the RECURRENCE-ID or the current anchor of something visible. */
  ghost predicate Names(s: Series, x: int) {
    exists t :: Visible(s, t) && (x == t || AnchorAt(s, t) == Some(x))
  }

  /** Whatever value names a visible occurrence, it resolves to a slot that is not excluded. */
  lemma NamedResolvesToSlot(s: Series, x: int)
    requires WellFormed(s) && Names(s, x)
    ensures HasSlot(s, Resolve(s, x)) && !Excluded(s, Resolve(s, x))
  {
    FindFinds(s.overrides, x);
    FindByAnchorFinds(s.overrides, x);
    var t :| Visible(s, t) && (x == t || AnchorAt(s, t) == Some(x));
    FindFinds(s.overrides, t);
    if Find(s.overrides, x).None? && FindByAnchor(s.overrides, x).None? {
      assert !Overridden(s, t);
      assert x == t;
    }
  }
}
