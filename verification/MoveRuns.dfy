/** Runs of edits over a store of recurring events and tasks. Every edit carries each slot to a slot of
    some resource; the carrying is one-to-one and preserves what is excluded and what is visible. */
module MoveRuns {
  import opened Lists
  import opened Recurrence
  import opened CalendarObject
  import opened Expansion
  import opened EventLaws
  import opened Store
  import opened Tasks
  import opened TaskLaws

  /** An edit of an event or a task with scope `all`, `this` or `thisfuture`, or a change of status of a
      task. The occurrence is named by `x`; `now` matters to tasks only. */
  datatype Op =
    | Edited(kind: Kind, uid: string, scope: Scope, x: int, edit: Edit, newUid: string, now: int)
    | Marked(uid: string, x: int, done: bool, now: int)

  predicate IsRequest(op: Op) {
    op.Edited? ==> if op.kind.Event? then IsEventEdit(op.edit) else IsTaskEdit(op.edit)
  }

  function Step(m: Resources, op: Op): Resources
    requires IsRequest(op)
  {
    match op
    case Edited(kind, uid, scope, x, e, newUid, now) =>
      if kind.Event? then Updated(m, uid, e, scope, Some(x), newUid).resources
      else TaskUpdated(m, uid, e, scope, Some(x), newUid, now).resources
    case Marked(uid, x, done, now) => StatusUpdated(m, uid, done, Some(x), now).resources
  }

  /** Events have a start; no new rule is brought, and a task that is cut keeps to the property it is
      anchored on. */
  predicate CanEdit(s: Series, kind: Kind, scope: Scope, e: Edit, x: int) {
    && s.master.rule.Some? && AnchorOf(s.master.body).Some?
    && e.rule.None? && !scope.OtherScope?
    && (kind.Event? ==> IsEventEdit(e) && IsRecurringEvent(s))
    && (kind.Todo? ==> IsTaskEdit(e) && (scope.ThisFuture? ==> AnchorsAgree(s, e, Resolve(s, x))))
  }

  ghost predicate Enabled(m: Resources, op: Op) {
    && IsRequest(op) && op.uid in m && Names(m[op.uid], op.x)
    && (op.Edited? ==> op.newUid !in m && CanEdit(m[op.uid], op.kind, op.scope, op.edit, op.x))
  }

  ghost predicate Invariant(m: Resources) {
    forall u | u in m :: WellFormed(m[u]) && m[u].master.body.uid == u
  }

  // ----- One edit of one resource -----

  /** How far an edit moves the occurrence at `p`. */
  function Distance(s: Series, kind: Kind, e: Edit, p: int): int
    requires kind.Event? ==> e.start.Some?
  {
    if kind.Event? then e.start.value - p else TaskAnchor(s, e, p) - p
  }

  /** A resource relates to another as if its slots at `t` had moved to `t'`. */
  ghost predicate SameAt(s: Series, t: int, s': Series, t': int) {
    && (HasSlot(s', t') <==> HasSlot(s, t))
    && (Excluded(s', t') <==> Excluded(s, t))
    && (Visible(s', t') <==> Visible(s, t))
  }

  /** As `SameAt`, for the slots on one side of a cut; there is nothing at the others. */
  ghost predicate PartAt(s: Series, side: bool, t: int, s': Series, t': int) {
    && (HasSlot(s', t') <==> HasSlot(s, t) && side)
    && (Excluded(s', t') <==> Excluded(s, t) && side)
    && (Visible(s', t') <==> Visible(s, t) && side)
  }

  function EditedAll(s: Series, kind: Kind, e: Edit, p: int): Series
    requires CanEdit(s, kind, All, e, p)
  {
    if kind.Event? then EventAll(s, e, p) else TaskAll(s, e, p)
  }

  lemma AllTracks(s: Series, kind: Kind, e: Edit, p: int, t: int)
    requires WellFormed(s) && CanEdit(s, kind, All, e, p)
    ensures SameAt(s, t, EditedAll(s, kind, e, p), t + Distance(s, kind, e, p))
    ensures WellFormed(EditedAll(s, kind, e, p))
  {
    if kind.Event? {
      AllCommutesWithExpansion(s, e, p, t);
      AllKeepsWellFormed(s, e, p);
    } else {
      TaskAllCommutes(s, e, p, t);
      TaskAllKeepsWellFormedIff(s, e, p);
    }
  }

  function EditedThis(s: Series, kind: Kind, e: Edit, p: int, now: int): Series {
    if kind.Event? then EventThis(s, e, p) else TaskThis(s, e, p, now)
  }

  lemma ThisTracks(s: Series, kind: Kind, e: Edit, p: int, now: int, t: int)
    requires WellFormed(s) && HasSlot(s, p) && !Excluded(s, p)
    ensures SameAt(s, t, EditedThis(s, kind, e, p, now), t)
    ensures WellFormed(EditedThis(s, kind, e, p, now))
  {
    var o := Detached(s, p, e, if kind.Event? then NO_PROGRESS else CarriedProgress(s, p, now));
    DetachingChangesOneSlot(s, o, t);
    DetachingKeepsWellFormed(s, o);
    assert HasSlot(WithOverride(s, o), t) <==> HasSlot(s, t);
  }

  lemma MarkTracks(s: Series, p: int, done: bool, now: int, t: int)
    requires WellFormed(s) && HasSlot(s, p) && !Excluded(s, p)
    ensures SameAt(s, t, StatusSet(s, p, done, now), t)
    ensures WellFormed(StatusSet(s, p, done, now))
  {
    StatusChangesOneSlot(s, p, done, now, t);
    StatusKeepsWellFormed(s, p, done, now);
    assert HasSlot(StatusSet(s, p, done, now), t) <==> HasSlot(s, t);
  }

  function EditedFirst(s: Series, kind: Kind, e: Edit, p: int): Series
    requires CanEdit(s, kind, All, e, p)
  {
    if kind.Event? then EventFirst(s, e, p) else TaskFirst(s, e, p)
  }

  lemma FirstTracks(s: Series, kind: Kind, e: Edit, t: int)
    requires WellFormed(s) && CanEdit(s, kind, All, e, 0)
    requires var p := AnchorOf(s.master.body).value;
      HasSlot(s, p) && !Excluded(s, p) && (kind.Todo? ==> AnchorsAgree(s, e, p))
    ensures var p := AnchorOf(s.master.body).value;
      && SameAt(s, t, EditedFirst(s, kind, e, p), t + Distance(s, kind, e, p))
      && WellFormed(EditedFirst(s, kind, e, p))
  {
    if kind.Event? {
      FirstMovesEveryOccurrence(s, e, t);
      FirstKeepsWellFormed(s, e);
    } else {
      TaskFirstMovesEverySlot(s, e, t);
      TaskFirstKeepsWellFormed(s, e);
    }
  }

  function EditedHead(s: Series, kind: Kind, p: int): Series
    requires s.master.rule.Some? && BaseOf(kind, s.master.body).Some?
  {
    if kind.Event? then EventHead(s, p) else TaskHead(s, p)
  }

  function EditedTail(s: Series, kind: Kind, e: Edit, p: int, newUid: string): Series
    requires CanEdit(s, kind, All, e, p)
  {
    if kind.Event? then EventTail(s, e, p, newUid) else TaskTail(s, e, p, newUid)
  }

  lemma SplitTracks(s: Series, kind: Kind, e: Edit, p: int, newUid: string, t: int)
    requires WellFormed(s) && CanEdit(s, kind, All, e, p)
    requires HasSlot(s, p) && !Excluded(s, p) && (kind.Todo? ==> AnchorsAgree(s, e, p))
    ensures PartAt(s, t < p, t, EditedHead(s, kind, p), t)
    ensures PartAt(s, p <= t, t, EditedTail(s, kind, e, p, newUid), t + Distance(s, kind, e, p))
    ensures WellFormed(EditedHead(s, kind, p)) && WellFormed(EditedTail(s, kind, e, p, newUid))
  {
    if kind.Event? {
      SplitShowsBothParts(s, e, p, newUid, t);
      SplitKeepsBothWellFormed(s, e, p, newUid);
    } else {
      TaskSplitDivides(s, e, p, newUid, t);
      TaskSplitKeepsWellFormedIff(s, e, p, newUid);
    }
  }

  // ----- One step of the store -----

  /** An enabled step as the resource it is for sees it; `p` is the slot it is resolved to. */
  ghost predicate Ready(s: Series, op: Op) {
    var p := Resolve(s, op.x);
    && WellFormed(s) && IsRequest(op)
    && HasSlot(s, p) && !Excluded(s, p)
    && (op.Edited? ==> CanEdit(s, op.kind, op.scope, op.edit, op.x))
  }

  /** Is the resource cut in two? */
  predicate Splits(s: Series, op: Op)
    requires AnchorOf(s.master.body).Some?
  {
    op.Edited? && op.scope.ThisFuture? && AnchorOf(s.master.body).value < Resolve(s, op.x)
  }

  /** The resource that stays, and the one spun off. */
  datatype Parts = Parts(stay: Series, spun: Option<Series>)

  ghost function PartsAfter(s: Series, op: Op): Parts
    requires Ready(s, op)
  {
    var p := Resolve(s, op.x);
    match op
    case Marked(_, _, done, now) => Parts(StatusSet(s, p, done, now), None)
    case Edited(kind, _, scope, _, e, newUid, now) =>
      if scope.This? then Parts(EditedThis(s, kind, e, p, now), None)
      else if scope.All? then Parts(EditedAll(s, kind, e, p), None)
      else if Splits(s, op) then Parts(EditedHead(s, kind, p), Some(EditedTail(s, kind, e, p, newUid)))
      else Parts(EditedFirst(s, kind, e, p), None)
  }

  /** Where slot `t` goes: into the part spun off, or not, and to which time. */
  function Place(s: Series, op: Op, t: int): (bool, int)
    requires AnchorOf(s.master.body).Some? && IsRequest(op)
  {
    var p := Resolve(s, op.x);
    if op.Marked? || op.scope.This? then (false, t)
    else
      var t' := t + Distance(s, op.kind, op.edit, p);
      if !Splits(s, op) then (false, t') else if t < p then (false, t) else (true, t')
  }

  /** Where a step takes slot `t` of resource `u`. */
  function Track(m: Resources, op: Op, slot: (string, int)): (string, int)
    requires op.uid in m && AnchorOf(m[op.uid].master.body).Some? && IsRequest(op)
  {
    var (u, t) := slot;
    if u != op.uid then slot
    else
      var (moves, t') := Place(m[u], op, t);
      (if moves then op.newUid else u, t')
  }

  lemma EnabledIsReady(m: Resources, op: Op)
    requires Invariant(m) && Enabled(m, op)
    ensures Ready(m[op.uid], op)
    ensures AnchorOf(m[op.uid].master.body).value <= Resolve(m[op.uid], op.x)
    ensures HasSlot(m[op.uid], AnchorOf(m[op.uid].master.body).value)
  {
    NamedResolvesToSlot(m[op.uid], op.x);
    FirstSlotBelow(m[op.uid], Resolve(m[op.uid], op.x));
  }

  /** A step replaces its resource by the part that stays and adds the one spun off. */
  lemma StepIsEdit(m: Resources, op: Op)
    requires Invariant(m) && Enabled(m, op)
    ensures Ready(m[op.uid], op)
    ensures var parts := PartsAfter(m[op.uid], op);
      var stayed := m[op.uid := parts.stay];
      Step(m, op) == if parts.spun.None? then stayed else stayed[op.newUid := parts.spun.value]
  {
    EnabledIsReady(m, op);
  }

  lemma PartsKeepWellFormed(s: Series, op: Op)
    requires Ready(s, op)
    ensures var parts := PartsAfter(s, op);
      && WellFormed(parts.stay) && parts.stay.master.body.uid == s.master.body.uid
      && (parts.spun.Some? ==>
            op.Edited? && WellFormed(parts.spun.value) && parts.spun.value.master.body.uid == op.newUid)
  {
    var p := Resolve(s, op.x);
    FirstSlotBelow(s, p);
    match op {
      case Marked(_, _, done, now) =>
        MarkTracks(s, p, done, now, p);
      case Edited(kind, _, scope, _, e, newUid, now) =>
        if scope.This? {
          ThisTracks(s, kind, e, p, now, p);
        } else if scope.All? {
          AllTracks(s, kind, e, p, p);
        } else if Splits(s, op) {
          SplitTracks(s, kind, e, p, newUid, p);
        } else {
          FirstTracks(s, kind, e, p);
        }
    }
  }

  lemma StepKeepsInvariant(m: Resources, op: Op)
    requires Invariant(m) && Enabled(m, op)
    ensures Invariant(Step(m, op))
  {
    StepIsEdit(m, op);
    PartsKeepWellFormed(m[op.uid], op);
  }

  lemma PartsTrack(s: Series, op: Op, t: int)
    requires Ready(s, op)
    ensures var (moves, t') := Place(s, op, t);
      var parts := PartsAfter(s, op);
      && (parts.spun.Some? <==> Splits(s, op))
      && (moves ==> parts.spun.Some?)
      && SameAt(s, t, if moves then parts.spun.value else parts.stay, t')
  {
    var p := Resolve(s, op.x);
    FirstSlotBelow(s, p);
    match op {
      case Marked(_, _, done, now) =>
        MarkTracks(s, p, done, now, t);
      case Edited(kind, _, scope, _, e, newUid, now) =>
        if scope.This? {
          ThisTracks(s, kind, e, p, now, t);
        } else if scope.All? {
          AllTracks(s, kind, e, p, t);
        } else if Splits(s, op) {
          SplitTracks(s, kind, e, p, newUid, t);
        } else {
          FirstTracks(s, kind, e, t);
        }
    }
  }

  lemma StepTracks(m: Resources, op: Op, u: string, t: int)
    requires Invariant(m) && Enabled(m, op) && u in m
    ensures var (u', t') := Track(m, op, (u, t));
      u' in Step(m, op) && SameAt(m[u], t, Step(m, op)[u'], t')
  {
    StepIsEdit(m, op);
    PartsTrack(m[op.uid], op, t);
  }

  // ----- Whole runs -----

  ghost predicate EnabledRun(m: Resources, ops: seq<Op>)
    decreases |ops|
  {
    ops != [] ==> Enabled(m, ops[0]) && EnabledRun(Step(m, ops[0]), ops[1..])
  }

  ghost function Run(m: Resources, ops: seq<Op>): Resources
    requires EnabledRun(m, ops)
    decreases |ops|
  {
    if ops == [] then m else Run(Step(m, ops[0]), ops[1..])
  }

  ghost function TrackRun(m: Resources, ops: seq<Op>, slot: (string, int)): (string, int)
    requires Invariant(m) && EnabledRun(m, ops)
    decreases |ops|
  {
    if ops == [] then slot
    else
      StepKeepsInvariant(m, ops[0]);
      TrackRun(Step(m, ops[0]), ops[1..], Track(m, ops[0], slot))
  }

  /** After any run the store is well-formed, and every slot the run started with is found where
      it was carried to: still a slot or not, still excluded or not, still visible or not. */
  lemma {:induction false} RunTracks(m: Resources, ops: seq<Op>, u: string, t: int)
    requires Invariant(m) && EnabledRun(m, ops) && u in m
    ensures var (u', t') := TrackRun(m, ops, (u, t));
      && Invariant(Run(m, ops))
      && u' in Run(m, ops) && SameAt(m[u], t, Run(m, ops)[u'], t')
    decreases |ops|
  {
    if ops != [] {
      StepKeepsInvariant(m, ops[0]);
      StepTracks(m, ops[0], u, t);
      var (u1, t1) := Track(m, ops[0], (u, t));
      RunTracks(Step(m, ops[0]), ops[1..], u1, t1);
    }
  }

  /** A plain occurrence deleted with scope `this` never comes back, wherever later edits of its
      series take the slot. */
  lemma DeletedStaysDeleted(m: Resources, kind: Kind, uid: string, p: int, ops: seq<Op>)
    requires Invariant(m) && uid in m && Visible(m[uid], p) && !Overridden(m[uid], p)
    requires BaseOf(kind, m[uid].master.body).Some?
    requires EnabledRun(Deleted(m, kind, uid, This, Some(p)).resources, ops)
    ensures var m1 := Deleted(m, kind, uid, This, Some(p)).resources;
      && Invariant(m1)
      && var (u', t') := TrackRun(m1, ops, (uid, p));
         u' in Run(m1, ops) && HasSlot(Run(m1, ops)[u'], t') && !Visible(Run(m1, ops)[u'], t')
  {
    var m1 := Deleted(m, kind, uid, This, Some(p)).resources;
    DeleteThisKeepsWellFormed(m[uid], p);
    DeleteThisRemovesIff(m[uid], p);
    assert HasSlot(m1[uid], p);
    RunTracks(m1, ops, uid, p);
  }

  // ----- Counting -----

  predicate Finite(m: Resources) {
    forall u | u in m :: m[u].master.rule.Some? ==> !m[u].master.rule.value.bound.Forever?
  }

  /** Everything there is to see, as (uid, slot) pairs. */
  ghost function VisiblePairs(m: Resources): (pairs: set<(string, int)>)
    requires Invariant(m) && Finite(m)
    ensures forall u, t :: (u, t) in pairs <==> u in m && Visible(m[u], t)
  {
    var pairs := set u, t | u in m.Keys && t in SlotSet(m[u]) && !Excluded(m[u], t) :: (u, t);
    assert forall u, t :: (u, t) in pairs <==> u in m && Visible(m[u], t) by {
      forall u, t | u in m ensures (u, t) in pairs <==> Visible(m[u], t) {
        FindFinds(m[u].overrides, t);
      }
    }
    pairs
  }

  predicate IsFinite(s: Series) {
    s.master.rule.Some? && !s.master.rule.value.bound.Forever?
  }

  lemma PartsStayFinite(s: Series, op: Op)
    requires Ready(s, op) && IsFinite(s)
    ensures var parts := PartsAfter(s, op); IsFinite(parts.stay) && (parts.spun.Some? ==> IsFinite(parts.spun.value))
  {
  }

  lemma StepKeepsFinite(m: Resources, op: Op)
    requires Invariant(m) && Enabled(m, op) && Finite(m)
    ensures Finite(Step(m, op))
  {
    StepIsEdit(m, op);
    assert IsFinite(m[op.uid]);
    PartsStayFinite(m[op.uid], op);
  }

  /** Where a slot of a part came from. */
  function Origin(s: Series, op: Op, spun: bool, t': int): int
    requires AnchorOf(s.master.body).Some? && IsRequest(op)
  {
    if op.Marked? || op.scope.This? || (Splits(s, op) && !spun) then t'
    else t' - Distance(s, op.kind, op.edit, Resolve(s, op.x))
  }

  lemma PartsInventNothing(s: Series, op: Op, spun: bool, t': int)
    requires Ready(s, op) && (spun ==> PartsAfter(s, op).spun.Some?)
    requires Visible(if spun then PartsAfter(s, op).spun.value else PartsAfter(s, op).stay, t')
    ensures var t := Origin(s, op, spun, t'); Visible(s, t) && Place(s, op, t) == (spun, t')
  {
    var p, t := Resolve(s, op.x), Origin(s, op, spun, t');
    PartsTrack(s, op, t);
    if Splits(s, op) {
      FirstSlotBelow(s, p);
      SplitTracks(s, op.kind, op.edit, p, op.newUid, t);
    }
  }

  /** Every visible occurrence after a step was carried there from a visible one. */
  lemma StepInventsNothing(m: Resources, op: Op, u': string, t': int)
    requires Invariant(m) && Enabled(m, op) && u' in Step(m, op) && Visible(Step(m, op)[u'], t')
    ensures exists u, t :: u in m && Visible(m[u], t) && Track(m, op, (u, t)) == (u', t')
  {
    StepIsEdit(m, op);
    var s := m[op.uid];
    var u, t := u', t';
    PartsTrack(s, op, 0);
    if op.Edited? && u' == op.newUid {
      u, t := op.uid, Origin(s, op, true, t');
      PartsInventNothing(s, op, true, t');
    } else if u' == op.uid {
      t := Origin(s, op, false, t');
      PartsInventNothing(s, op, false, t');
    }
    assert Visible(m[u], t) && Track(m, op, (u, t)) == (u', t');
  }

  lemma StepConserves(m: Resources, op: Op)
    requires Invariant(m) && Enabled(m, op) && Finite(m)
    ensures Invariant(Step(m, op)) && Finite(Step(m, op))
    ensures |VisiblePairs(Step(m, op))| == |VisiblePairs(m)|
  {
    StepKeepsInvariant(m, op);
    StepKeepsFinite(m, op);
    var before, after := VisiblePairs(m), VisiblePairs(Step(m, op));
    assert AnchorOf(m[op.uid].master.body).Some?;
    var carry := (slot: (string, int)) =>
      if op.uid in m && AnchorOf(m[op.uid].master.body).Some? && IsRequest(op) then Track(m, op, slot) else slot;
    forall x, y | x in before && y in before && carry(x) == carry(y) ensures x == y {
      TrackIsOneToOne(m, op, x, y);
    }
    InjectiveImageSize(before, carry);
    forall x | x in before ensures carry(x) in after {
      StepTracks(m, op, x.0, x.1);
    }
    forall y | y in after ensures y in Image(before, carry) {
      StepInventsNothing(m, op, y.0, y.1);
      var u, t :| u in m && Visible(m[u], t) && Track(m, op, (u, t)) == y;
      assert (u, t) in before && carry((u, t)) == y;
    }
    assert Image(before, carry) == after;
  }

  lemma TrackIsOneToOne(m: Resources, op: Op, x: (string, int), y: (string, int))
    requires op.uid in m && AnchorOf(m[op.uid].master.body).Some? && IsRequest(op) && (op.Edited? ==> op.newUid !in m)
    requires x.0 in m && y.0 in m && Track(m, op, x) == Track(m, op, y)
    ensures x == y
  {
  }

  /** Over any run of edits and status changes on finite series the number of visible occurrences in the
      store stays the same. */
  lemma {:induction false} RunConserves(m: Resources, ops: seq<Op>)
    requires Invariant(m) && Finite(m) && EnabledRun(m, ops)
    ensures Invariant(Run(m, ops)) && Finite(Run(m, ops))
    ensures |VisiblePairs(Run(m, ops))| == |VisiblePairs(m)|
    decreases |ops|
  {
    if ops != [] {
      StepConserves(m, ops[0]);
      RunConserves(Step(m, ops[0]), ops[1..]);
    }
  }

  /** Deletions take away exactly the occurrences they name: one plain occurrence, or everything of the
      series from the pivot on. */
  lemma DeletionsRemoveWhatTheyName(m: Resources, kind: Kind, uid: string, p: int)
    requires Invariant(m) && Finite(m) && uid in m && BaseOf(kind, m[uid].master.body).Some?
    ensures Visible(m[uid], p) && !Overridden(m[uid], p) ==>
      var m1 := Deleted(m, kind, uid, This, Some(p)).resources;
      Invariant(m1) && Finite(m1) && VisiblePairs(m1) == VisiblePairs(m) - {(uid, p)}
    ensures HasSlot(m[uid], p) ==>
      var m1 := Deleted(m, kind, uid, ThisFuture, Some(p)).resources;
      Invariant(m1) && Finite(m1)
      && VisiblePairs(m1) == VisiblePairs(m) - set x | x in VisiblePairs(m) && x.0 == uid && p <= x.1
  {
    if Visible(m[uid], p) && !Overridden(m[uid], p) {
      OneDeletionRemovesOne(m, kind, uid, p);
    }
    if HasSlot(m[uid], p) {
      FutureDeletionRemovesRest(m, kind, uid, p);
    }
  }

  lemma OneDeletionRemovesOne(m: Resources, kind: Kind, uid: string, p: int)
    requires Invariant(m) && Finite(m) && uid in m && BaseOf(kind, m[uid].master.body).Some?
    requires Visible(m[uid], p) && !Overridden(m[uid], p)
    ensures var m1 := Deleted(m, kind, uid, This, Some(p)).resources;
      Invariant(m1) && Finite(m1) && VisiblePairs(m1) == VisiblePairs(m) - {(uid, p)}
  {
    DeleteThisKeepsWellFormed(m[uid], p);
    DeleteThisRemovesIff(m[uid], p);
  }

  lemma NothingBeforeFirst(s: Series)
    requires WellFormed(s)
    ensures forall t | Visible(s, t) :: AnchorOf(s.master.body).value <= t
  {
    forall t | Visible(s, t) ensures AnchorOf(s.master.body).value <= t {
      FindFinds(s.overrides, t);
      FirstSlotBelow(s, t);
    }
  }

  lemma FutureDeletionRemovesRest(m: Resources, kind: Kind, uid: string, p: int)
    requires Invariant(m) && Finite(m) && uid in m && BaseOf(kind, m[uid].master.body).Some? && HasSlot(m[uid], p)
    ensures var m1 := Deleted(m, kind, uid, ThisFuture, Some(p)).resources;
      Invariant(m1) && Finite(m1)
      && VisiblePairs(m1) == VisiblePairs(m) - set x | x in VisiblePairs(m) && x.0 == uid && p <= x.1
  {
    var s, m1 := m[uid], Deleted(m, kind, uid, ThisFuture, Some(p)).resources;
    CutLeavesEarlier(m, kind, uid, p);
    forall u, t ensures (u, t) in VisiblePairs(m1) <==> (u, t) in VisiblePairs(m) && !(u == uid && p <= t) {
      assert u in m1 && u != uid ==> m1[u] == m[u];
    }
  }

  /** What a `thisfuture` deletion leaves of its resource, which may be nothing. */
  lemma CutLeavesEarlier(m: Resources, kind: Kind, uid: string, p: int)
    requires Invariant(m) && Finite(m) && uid in m && BaseOf(kind, m[uid].master.body).Some? && HasSlot(m[uid], p)
    ensures var m1 := Deleted(m, kind, uid, ThisFuture, Some(p)).resources;
      && m1 - {uid} == m - {uid} && Invariant(m1) && Finite(m1)
      && (forall t :: uid in m1 && Visible(m1[uid], t) <==> Visible(m[uid], t) && t < p)
  {
    var s := m[uid];
    assert AnchorOf(s.master.body) == BaseOf(kind, s.master.body);
    FirstSlotBelow(s, p);
    if p <= AnchorOf(s.master.body).value {
      NothingBeforeFirst(s);
    } else {
      DeleteFutureKeepsEarlier(s, p);
      var m1 := Deleted(m, kind, uid, ThisFuture, Some(p)).resources;
      assert m1[uid] == DeletedFuture(s, AnchorOf(s.master.body).value, p);
    }
  }

  // ----- Runs with deletions -----

  datatype Act = Change(op: Op) | Delete(kind: Kind, uid: string, scope: Scope, p: int)

  /** Deletions name a plain occurrence, a slot to cut at, or a whole resource. */
  ghost predicate Permitted(m: Resources, a: Act) {
    match a
    case Change(op) => Enabled(m, op)
    case Delete(kind, uid, scope, p) =>
      && uid in m && BaseOf(kind, m[uid].master.body).Some?
      && (scope.This? ==> Visible(m[uid], p) && !Overridden(m[uid], p))
      && (scope.ThisFuture? ==> HasSlot(m[uid], p))
  }

  ghost function AfterAct(m: Resources, a: Act): Resources
    requires Permitted(m, a)
  {
    match a
    case Change(op) => Step(m, op)
    case Delete(kind, uid, scope, p) => Deleted(m, kind, uid, scope, Some(p)).resources
  }

  /** The visible occurrences that an act names for deletion. */
  ghost function NamedBy(m: Resources, a: Act): (named: set<(string, int)>)
    requires Invariant(m) && Finite(m) && Permitted(m, a)
    ensures named <= VisiblePairs(m)
  {
    match a
    case Change(_) => {}
    case Delete(_, uid, This, p) => {(uid, p)}
    case Delete(_, uid, ThisFuture, p) => set x | x in VisiblePairs(m) && x.0 == uid && p <= x.1
    case Delete(_, uid, _, _) => set x | x in VisiblePairs(m) && x.0 == uid
  }

  /** An act takes away exactly as many occurrences as it names, and a deletion exactly those. */
  lemma ActRemovesNamed(m: Resources, a: Act)
    requires Invariant(m) && Finite(m) && Permitted(m, a)
    ensures var m1 := AfterAct(m, a);
      && Invariant(m1) && Finite(m1)
      && (a.Delete? ==> VisiblePairs(m1) == VisiblePairs(m) - NamedBy(m, a))
      && |VisiblePairs(m1)| == |VisiblePairs(m)| - |NamedBy(m, a)|
  {
    if a.Change? {
      StepConserves(m, a.op);
    } else {
      if a.scope.This? {
        OneDeletionRemovesOne(m, a.kind, a.uid, a.p);
      } else if a.scope.ThisFuture? {
        FutureDeletionRemovesRest(m, a.kind, a.uid, a.p);
      } else {
        WholeDeletionRemovesAll(m, a);
      }
      RestSize(VisiblePairs(m), NamedBy(m, a));
    }
  }

  lemma WholeDeletionRemovesAll(m: Resources, a: Act)
    requires Invariant(m) && Finite(m) && Permitted(m, a) && a.Delete? && !a.scope.This? && !a.scope.ThisFuture?
    ensures var m1 := AfterAct(m, a);
      Invariant(m1) && Finite(m1) && VisiblePairs(m1) == VisiblePairs(m) - NamedBy(m, a)
  {
    assert AfterAct(m, a) == m - {a.uid};
  }

  lemma RestSize<T>(all: set<T>, part: set<T>)
    requires part <= all
    ensures |all - part| == |all| - |part|
  {
    assert all == (all - part) + part;
  }

  ghost predicate PermittedRun(m: Resources, acts: seq<Act>)
    decreases |acts|
  {
    acts != [] ==> Permitted(m, acts[0]) && PermittedRun(AfterAct(m, acts[0]), acts[1..])
  }

  ghost function AfterActs(m: Resources, acts: seq<Act>): Resources
    requires PermittedRun(m, acts)
    decreases |acts|
  {
    if acts == [] then m else AfterActs(AfterAct(m, acts[0]), acts[1..])
  }

  /** How many occurrences the deletions of a run named, each when its turn came. */
  ghost function NamedInRun(m: Resources, acts: seq<Act>): nat
    requires Invariant(m) && Finite(m) && PermittedRun(m, acts)
    decreases |acts|
  {
    if acts == [] then 0
    else
      ActRemovesNamed(m, acts[0]);
      |NamedBy(m, acts[0])| + NamedInRun(AfterAct(m, acts[0]), acts[1..])
  }

  /** Over any run of edits, status changes and deletions the occurrences that are left number those there
      were, less what the deletions named. */
  lemma {:induction false} RunLosesWhatItNames(m: Resources, acts: seq<Act>)
    requires Invariant(m) && Finite(m) && PermittedRun(m, acts)
    ensures Invariant(AfterActs(m, acts)) && Finite(AfterActs(m, acts))
    ensures |VisiblePairs(AfterActs(m, acts))| == |VisiblePairs(m)| - NamedInRun(m, acts)
    decreases |acts|
  {
    if acts != [] {
      ActRemovesNamed(m, acts[0]);
      RunLosesWhatItNames(AfterAct(m, acts[0]), acts[1..]);
    }
  }
}
