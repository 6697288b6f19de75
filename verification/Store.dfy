/** The calendar store and the requests that update and delete its events. Saved resources are
    text, so the store maps uids to values; a request parses one, edits it and saves it back. */
module Store {
  import opened Lists
  import opened CalendarObject

  datatype Scope = All | This | ThisFuture | OtherScope(name: string)

  /** `MissingAnchor` stands for the KeyError of decoding an absent start. */
  datatype Outcome = Ok | NotFound | UnknownScope | MissingAnchor

  type Resources = map<string, Series>

  datatype Answer = Answer(resources: Resources, outcome: Outcome)

  // ----- What a request does to the store -----

  /** A scoped request without a pivot, or on a plain event, is for the whole event. */
  function EffectiveScope(s: Series, scope: Scope, recurrenceId: Option<int>): Scope {
    if s.master.rule.None? || recurrenceId.None? then All else scope
  }

  function Updated(m: Resources, uid: string, e: Edit, scope: Scope, recurrenceId: Option<int>, newUid: string): Answer
    requires IsEventEdit(e)
  {
    if uid !in m then Answer(m, NotFound)
    else
      var s := m[uid];
      if s.master.rule.None? || recurrenceId.None? then Answer(m[uid := EventRewritten(s, e)], Ok)
      else if AnchorOf(s.master.body).None? then Answer(m, MissingAnchor)
      else
        var p := Resolve(s, recurrenceId.value);
        match scope
        case OtherScope(_) => Answer(m, UnknownScope)
        case This => Answer(m[uid := EventThis(s, e, p)], Ok)
        case All =>
          if s.master.body.start.None? then Answer(m, MissingAnchor) else Answer(m[uid := EventAll(s, e, p)], Ok)
        case ThisFuture =>
          if s.master.body.start.None? then Answer(m, MissingAnchor)
          else if p <= s.master.body.start.value then Answer(m[uid := EventFirst(s, e, p)], Ok)
          else Answer(m[uid := EventHead(s, p)][newUid := EventTail(s, e, p, newUid)], Ok)
  }

  /** A deletion takes the RECURRENCE-ID as it comes; an unknown scope deletes the resource. */
  function Deleted(m: Resources, kind: Kind, uid: string, scope: Scope, recurrenceId: Option<int>): Answer {
    if uid !in m then Answer(m, NotFound)
    else
      var s := m[uid];
      if scope.All? || s.master.rule.None? || recurrenceId.None? then Answer(m - {uid}, Ok)
      else if BaseOf(kind, s.master.body).None? then Answer(m, MissingAnchor)
      else
        var base, p := BaseOf(kind, s.master.body).value, recurrenceId.value;
        match scope
        case This => Answer(m[uid := DeletedThis(s, p)], Ok)
        case ThisFuture =>
          if p <= base then Answer(m - {uid}, Ok) else Answer(m[uid := DeletedFuture(s, base, p)], Ok)
        case _ => Answer(m - {uid}, Ok)
  }

  class Calendar {
    var resources: Resources

    constructor ()
      ensures resources == map[]
    {
      resources := map[];
    }

    /** `_sync_update_event`. `newUid` is the fresh uid a split gives the series it spins off. */
    method UpdateEvent(uid: string, e: Edit, scope: Scope, recurrenceId: Option<int>, newUid: string)
      returns (outcome: Outcome)
      requires IsEventEdit(e) && newUid !in resources
      modifies this
      ensures Answer(resources, outcome) == Updated(old(resources), uid, e, scope, recurrenceId, newUid)
    {
      if uid !in resources {
        return NotFound;
      }
      var ical := new Ical(resources[uid]);
      if EffectiveScope(ical.Value(), scope, recurrenceId) == All {
        if ical.master.rule.Some? && recurrenceId.Some? && ical.master.body.start.None? {
          return MissingAnchor;
        }
        ical.EditEventAll(e, recurrenceId);
        resources := resources[uid := ical.Value()];
        return Ok;
      }
      if AnchorOf(ical.master.body).None? {
        return MissingAnchor;
      }
      var p := ical.ResolvePivot(recurrenceId.value);
      match scope {
        case This =>
          ical.EditEventThis(e, p);
          resources := resources[uid := ical.Value()];
          return Ok;
        case ThisFuture =>
          if ical.master.body.start.None? {
            return MissingAnchor;
          }
          var spun := ical.EditEventThisFuture(e, p, newUid);
          resources := resources[uid := ical.Value()];
          if spun.Some? {
            resources := resources[newUid := spun.value];
          }
          return Ok;
        case OtherScope(_) =>
          return UnknownScope;
      }
    }

    /** `_sync_delete_event`. */
    method DeleteEvent(uid: string, scope: Scope, recurrenceId: Option<int>) returns (outcome: Outcome)
      modifies this
      ensures Answer(resources, outcome) == Deleted(old(resources), Event, uid, scope, recurrenceId)
    {
      if uid !in resources {
        return NotFound;
      }
      var ical := new Ical(resources[uid]);
      if scope.All? || ical.master.rule.None? || recurrenceId.None? {
        resources := resources - {uid};
        return Ok;
      }
      if ical.master.body.start.None? {
        return MissingAnchor;
      }
      var p, base := recurrenceId.value, ical.master.body.start.value;
      if scope.This? {
        ical.master := ical.master.(exdates := ical.master.exdates + [p]);
      } else if scope.ThisFuture? {
        if p <= base {
          resources := resources - {uid};
          return Ok;
        }
        ical.TruncateUntil(base, p);
        var orphans := ical.PopOverrides(Below(p));
      } else {
        resources := resources - {uid};
        return Ok;
      }
      resources := resources[uid := ical.Value()];
      return Ok;
    }
  }
}
