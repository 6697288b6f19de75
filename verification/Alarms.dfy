/** The alarms of a component: which ones the reminder editor may touch, replacing those, and
    reading them back. */
module Alarms {
  import opened Lists
  import opened Ascii
  import opened Reminders

  /** A TRIGGER property: absent, not decodable, a duration, or a date-time. */
  datatype When = Missing | Malformed | Relative(offset: int) | Absolute(at: int)

  datatype Alarm = Alarm(when: When, related: Option<string>, action: Option<string>)

  /** A subcomponent of an event or task. */
  datatype Sub = Valarm(alarm: Alarm) | OtherSub(name: string)

  /** `_classify_alarm`: the editable (offset, RELATED), or nothing. */
  function Classify(a: Alarm): Option<Trigger> {
    if !a.when.Relative? then None
    else if a.action.Some? && Upper(a.action.value) == "EMAIL" then None
    else
      var end := a.related.Some? && Upper(a.related.value) == "END";
      Some(Trigger(a.when.offset, if end then End else Start))
  }

  predicate IsEditable(s: Sub) {
    s.Valarm? && Classify(s.alarm).Some?
  }

  // ----- Writing -----

  /** END needs an end to be relative to. */
  function Effective(t: Trigger, hasEnd: bool): Trigger {
    if t.related.End? && !hasEnd then Trigger(t.offset, Start) else t
  }

  function DisplayAlarm(t: Trigger, hasEnd: bool): Sub {
    Valarm(Alarm(Relative(t.offset), if t.related.End? && hasEnd then Some("END") else None, Some("DISPLAY")))
  }

  function DisplayAlarms(ts: seq<Trigger>, hasEnd: bool): (subs: seq<Sub>)
    ensures |subs| == |ts| && forall i | 0 <= i < |ts| :: subs[i] == DisplayAlarm(ts[i], hasEnd)
  {
    seq(|ts|, i requires 0 <= i < |ts| => DisplayAlarm(ts[i], hasEnd))
  }

  function Untouchable(subs: seq<Sub>): seq<Sub> {
    if subs == [] then []
    else
      var front := Untouchable(subs[..|subs| - 1]);
      if IsEditable(subs[|subs| - 1]) then front else front + [subs[|subs| - 1]]
  }

  function Applied(subs: seq<Sub>, triggers: Option<seq<Trigger>>, hasEnd: bool): seq<Sub> {
    match triggers
    case None => subs
    case Some(ts) => Untouchable(subs) + DisplayAlarms(ts, hasEnd)
  }

  /** `_apply_alarms`: take every editable alarm out of the list, then append the new ones. */
  method Apply(subs: seq<Sub>, triggers: Option<seq<Trigger>>, hasEnd: bool) returns (result: seq<Sub>)
    ensures result == Applied(subs, triggers, hasEnd)
  {
    if triggers.None? {
      return subs;
    }
    var kept := RemoveEditable(subs);
    result := kept;
    var ts := triggers.value;
    for j := 0 to |ts|
      invariant result == kept + DisplayAlarms(ts, hasEnd)[..j]
    {
      result := result + [DisplayAlarm(ts[j], hasEnd)];
    }
    assert DisplayAlarms(ts, hasEnd)[..|ts|] == DisplayAlarms(ts, hasEnd);
  }

  method RemoveEditable(subs: seq<Sub>) returns (result: seq<Sub>)
    ensures result == Untouchable(subs)
  {
    result := subs;
    for i := 0 to |subs|
      invariant result == Removing(subs, i)
    {
      RemovingStep(subs, i);
      if IsEditable(subs[i]) {
        result := RemoveFirst(result, subs[i]);
      }
    }
    assert subs[..|subs|] == subs;
  }

  /** The list while alarms are being removed: the first `i` are decided. */
  ghost function Removing(subs: seq<Sub>, i: nat): seq<Sub>
    requires i <= |subs|
  {
    Untouchable(subs[..i]) + subs[i..]
  }

  lemma RemovingStep(subs: seq<Sub>, i: nat)
    requires i < |subs|
    ensures Removing(subs, i + 1)
         == if IsEditable(subs[i]) then RemoveFirst(Removing(subs, i), subs[i]) else Removing(subs, i)
  {
    var front := Untouchable(subs[..i]);
    UntouchableStep(subs, i);
    assert Removing(subs, i) == front + [subs[i]] + subs[i + 1..];
    if IsEditable(subs[i]) {
      UntouchableIsFilter(subs[..i], subs[i]);
      RemoveFirstAt(front, subs[i], subs[i + 1..]);
    }
  }

  lemma UntouchableStep(subs: seq<Sub>, i: nat)
    requires i < |subs|
    ensures Untouchable(subs[..i + 1]) == Untouchable(subs[..i]) + if IsEditable(subs[i]) then [] else [subs[i]]
  {
    assert subs[..i + 1][..i] == subs[..i];
  }

  lemma {:induction false} UntouchableIsFilter(subs: seq<Sub>, s: Sub)
    ensures s in Untouchable(subs) <==> s in subs && !IsEditable(s)
  {
    if subs != [] {
      UntouchableIsFilter(subs[..|subs| - 1], s);
      assert subs == subs[..|subs| - 1] + [subs[|subs| - 1]];
    }
  }

  lemma {:induction false} UntouchableOfConcat(a: seq<Sub>, b: seq<Sub>)
    ensures Untouchable(a + b) == Untouchable(a) + Untouchable(b)
  {
    if b == [] {
      assert a + b == a;
    } else {
      var front := b[..|b| - 1];
      UntouchableOfConcat(a, front);
      assert (a + b)[..|a + b| - 1] == a + front;
    }
  }

  lemma {:induction false} UntouchableWhenNoneEditable(subs: seq<Sub>)
    requires forall s | s in subs :: !IsEditable(s)
    ensures Untouchable(subs) == subs
  {
    if subs != [] {
      UntouchableWhenNoneEditable(subs[..|subs| - 1]);
    }
  }

  lemma {:induction false} UntouchableWhenAllEditable(subs: seq<Sub>)
    requires forall s | s in subs :: IsEditable(s)
    ensures Untouchable(subs) == []
  {
    if subs != [] {
      UntouchableWhenAllEditable(subs[..|subs| - 1]);
    }
  }

  lemma DisplayAlarmIsEditable(t: Trigger, hasEnd: bool)
    ensures Classify(DisplayAlarm(t, hasEnd).alarm) == Some(Effective(t, hasEnd))
  {
    assert Upper("END") == "END";
    assert Upper("DISPLAY")[0] == 'D';
  }

  /** Everything outside the editor's reach survives, in order, whatever is applied. */
  lemma ApplyKeepsUntouchable(subs: seq<Sub>, triggers: Option<seq<Trigger>>, hasEnd: bool)
    ensures Untouchable(Applied(subs, triggers, hasEnd)) == Untouchable(subs)
  {
    if triggers.Some? {
      var added := DisplayAlarms(triggers.value, hasEnd);
      forall s | s in Untouchable(subs) ensures !IsEditable(s) {
        UntouchableIsFilter(subs, s);
      }
      UntouchableWhenNoneEditable(Untouchable(subs));
      forall s | s in added ensures IsEditable(s) {
        var i :| 0 <= i < |added| && added[i] == s;
        DisplayAlarmIsEditable(triggers.value[i], hasEnd);
      }
      UntouchableWhenAllEditable(added);
      UntouchableOfConcat(Untouchable(subs), added);
    }
  }

  /** Applying a trigger list a second time, or after any other list, gives what applying it
      once gives. */
  lemma ApplyForgetsEarlierLists(subs: seq<Sub>, before: Option<seq<Trigger>>, ts: seq<Trigger>,
                                 hadEnd: bool, hasEnd: bool)
    ensures Applied(Applied(subs, before, hadEnd), Some(ts), hasEnd) == Applied(subs, Some(ts), hasEnd)
  {
    ApplyKeepsUntouchable(subs, before, hadEnd);
  }

  // ----- Reading -----

  /** What an alarm is to a reader: an editable trigger, or a read-only reminder with the instant of
      an absolute trigger. */
  datatype Reading = Rewritable(trigger: Trigger) | Fixed(at: Option<int>)

  function ReadingsOf(s: Sub): seq<Reading> {
    if !s.Valarm? || s.alarm.when.Missing? then []
    else match Classify(s.alarm)
      case Some(t) => [Rewritable(t)]
      case None =>
        match s.alarm.when
        case Absolute(at) => [Fixed(Some(at))]
        case Relative(_) => [Fixed(None)]
        case _ => []
  }

  function Readings(subs: seq<Sub>): seq<Reading> {
    Flat(subs, ReadingsOf)
  }

  /** A reminder as the client gets it: an editable row, or a read-only one. */
  datatype Entry = Editable(row: Reminder) | ReadOnly(at: Option<int>)

  function EntryOf(r: Reading, allDay: bool): Entry {
    match r
    case Rewritable(t) => Editable(Decode(t, allDay))
    case Fixed(at) => ReadOnly(at)
  }

  function EntriesOf(rs: seq<Reading>, allDay: bool): (entries: seq<Entry>)
    ensures |entries| == |rs| && forall i | 0 <= i < |rs| :: entries[i] == EntryOf(rs[i], allDay)
  {
    seq(|rs|, i requires 0 <= i < |rs| => EntryOf(rs[i], allDay))
  }

  function Entries(subs: seq<Sub>, allDay: bool): seq<Entry> {
    EntriesOf(Readings(subs), allDay)
  }

  /** `_extract_reminders`. */
  method Extract(subs: seq<Sub>, allDay: bool) returns (entries: seq<Entry>)
    ensures entries == Entries(subs, allDay)
  {
    entries := [];
    for i := 0 to |subs|
      invariant entries == EntriesOf(Readings(subs[..i]), allDay)
    {
      ReadingsStep(subs, i);
      var sub := subs[i];
      if sub.Valarm? && !sub.alarm.when.Missing? {
        var editable := Classify(sub.alarm);
        if editable.Some? {
          entries := entries + [EntryOf(Rewritable(editable.value), allDay)];
        } else if sub.alarm.when.Absolute? {
          entries := entries + [ReadOnly(Some(sub.alarm.when.at))];
        } else if sub.alarm.when.Relative? {
          entries := entries + [ReadOnly(None)];
        }
      }
    }
    assert subs[..|subs|] == subs;
  }

  lemma ReadingsStep(subs: seq<Sub>, i: nat)
    requires i < |subs|
    ensures Readings(subs[..i + 1]) == Readings(subs[..i]) + ReadingsOf(subs[i])
  {
    assert subs[..i + 1][..i] == subs[..i];
  }

  lemma ReadingsOfConcat(a: seq<Sub>, b: seq<Sub>)
    ensures Readings(a + b) == Readings(a) + Readings(b)
  {
    FlatOfConcat(a, b, ReadingsOf);
  }

  function RewritableAll(ts: seq<Trigger>, hasEnd: bool): (rs: seq<Reading>)
    ensures |rs| == |ts| && forall i | 0 <= i < |ts| :: rs[i] == Rewritable(Effective(ts[i], hasEnd))
  {
    seq(|ts|, i requires 0 <= i < |ts| => Rewritable(Effective(ts[i], hasEnd)))
  }

  lemma {:induction false} ReadingsOfDisplayAlarms(ts: seq<Trigger>, hasEnd: bool)
    ensures Readings(DisplayAlarms(ts, hasEnd)) == RewritableAll(ts, hasEnd)
  {
    if ts != [] {
      var front := ts[..|ts| - 1];
      ReadingsOfDisplayAlarms(front, hasEnd);
      DisplayAlarmIsEditable(ts[|ts| - 1], hasEnd);
      assert DisplayAlarms(ts, hasEnd)[..|ts| - 1] == DisplayAlarms(front, hasEnd);
      assert RewritableAll(ts, hasEnd) == RewritableAll(front, hasEnd) + [Rewritable(Effective(ts[|ts| - 1], hasEnd))];
    }
  }

  /** The alarms after an apply read as those outside the editor's reach, then one per trigger. */
  lemma ReadingsAfterApply(subs: seq<Sub>, ts: seq<Trigger>, hasEnd: bool)
    ensures Readings(Applied(subs, Some(ts), hasEnd)) == Readings(Untouchable(subs)) + RewritableAll(ts, hasEnd)
  {
    ReadingsOfConcat(Untouchable(subs), DisplayAlarms(ts, hasEnd));
    ReadingsOfDisplayAlarms(ts, hasEnd);
  }

  function Rows(ts: seq<Trigger>, hasEnd: bool, allDay: bool): (entries: seq<Entry>) {
    EntriesOf(RewritableAll(ts, hasEnd), allDay)
  }

  /** Reading back what was applied: the read-only reminders that were there, then one row per
      trigger, in order. */
  lemma ExtractAfterApply(subs: seq<Sub>, ts: seq<Trigger>, hasEnd: bool, allDay: bool)
    ensures Entries(Applied(subs, Some(ts), hasEnd), allDay)
         == Entries(Untouchable(subs), allDay) + Rows(ts, hasEnd, allDay)
  {
    ReadingsAfterApply(subs, ts, hasEnd);
  }

  // ----- Which alarms the editor may touch -----

  predicate IsEmail(a: Alarm) {
    a.action.Some? && SameButCase(a.action.value, "EMAIL")
  }

  predicate IsRelatedToEnd(a: Alarm) {
    a.related.Some? && SameButCase(a.related.value, "END")
  }

  lemma ClassifyIff(a: Alarm)
    ensures Classify(a)
         == if !a.when.Relative? || IsEmail(a) then None
            else Some(Trigger(a.when.offset, if IsRelatedToEnd(a) then End else Start))
  {
    if a.action.Some? {
      UpperIff(a.action.value, "EMAIL");
    }
    if a.related.Some? {
      UpperIff(a.related.value, "END");
    }
  }

  /** An apply removes exactly the alarms with a relative trigger that are no emails, and nothing but alarms;
      what was there and remains does so as often as before. */
  lemma ApplyRemovesIff(subs: seq<Sub>, ts: seq<Trigger>, hasEnd: bool, s: Sub)
    ensures var after := multiset(Applied(subs, Some(ts), hasEnd))[s];
      var added := multiset(DisplayAlarms(ts, hasEnd))[s];
      after == added + if s.Valarm? && s.alarm.when.Relative? && !IsEmail(s.alarm) then 0 else multiset(subs)[s]
    ensures Applied(subs, None, hasEnd) == subs
  {
    if s.Valarm? {
      ClassifyIff(s.alarm);
    }
    UntouchableCounts(subs, s);
  }

  lemma {:induction false} UntouchableCounts(subs: seq<Sub>, s: Sub)
    ensures multiset(Untouchable(subs))[s] == if IsEditable(s) then 0 else multiset(subs)[s]
  {
    if subs != [] {
      UntouchableCounts(subs[..|subs| - 1], s);
      assert subs == subs[..|subs| - 1] + [subs[|subs| - 1]];
    }
  }

  /** What is added is one DISPLAY alarm per trigger, in order and after everything that is kept, relative to
      the end where there is one to be relative to. */
  lemma WrittenAlarmsAre(subs: seq<Sub>, ts: seq<Trigger>, hasEnd: bool, i: nat)
    requires i < |ts|
    ensures var after := Applied(subs, Some(ts), hasEnd);
      && |ts| <= |after|
      && after[|after| - |ts| + i].Valarm?
      && var alarm := after[|after| - |ts| + i].alarm;
      && alarm.when == Relative(ts[i].offset) && alarm.action == Some("DISPLAY")
      && alarm.related == if ts[i].related.End? && hasEnd then Some("END") else None
  {
    assert DisplayAlarms(ts, hasEnd)[i] == DisplayAlarm(ts[i], hasEnd);
  }

  /** How one subcomponent is read, by its own properties: an alarm with a relative trigger is an editable row
      unless it is an email, which is read-only like one at a fixed time; the rest is not shown. */
  lemma ReadAsIff(s: Sub, allDay: bool)
    ensures Entries([s], allDay)
         == if !s.Valarm? then []
            else match s.alarm.when
              case Missing => []
              case Malformed => []
              case Absolute(at) => [ReadOnly(Some(at))]
              case Relative(offset) =>
                if IsEmail(s.alarm) then [ReadOnly(None)]
                else [Editable(Decode(Trigger(offset, if IsRelatedToEnd(s.alarm) then End else Start), allDay))]
  {
    if s.Valarm? {
      ClassifyIff(s.alarm);
    }
    FlatExtends([], s, ReadingsOf);
    assert [] + [s] == [s];
  }

  // ----- Opening and saving -----

  /** The triggers of the editable readings, in order. */
  function TriggersIn(rs: seq<Reading>): seq<Trigger> {
    if rs == [] then []
    else
      var front := TriggersIn(rs[..|rs| - 1]);
      match rs[|rs| - 1]
      case Rewritable(t) => front + [t]
      case Fixed(_) => front
  }

  /** The rows the editor would send back after reading a component. */
  function EditableRows(subs: seq<Sub>, allDay: bool): (rows: seq<Reminder>)
    ensures |rows| == |TriggersIn(Readings(subs))|
    ensures forall i | 0 <= i < |rows| :: rows[i] == Decode(TriggersIn(Readings(subs))[i], allDay)
  {
    var ts := TriggersIn(Readings(subs));
    seq(|ts|, i requires 0 <= i < |ts| => Decode(ts[i], allDay))
  }

  lemma {:induction false} TriggersInConcat(a: seq<Reading>, b: seq<Reading>)
    ensures TriggersIn(a + b) == TriggersIn(a) + TriggersIn(b)
  {
    if b == [] {
      assert a + b == a;
    } else {
      TriggersInConcat(a, b[..|b| - 1]);
      assert (a + b)[..|a + b| - 1] == a + b[..|b| - 1];
    }
  }

  lemma {:induction false} NoTriggersInUntouchable(subs: seq<Sub>)
    ensures TriggersIn(Readings(Untouchable(subs))) == []
  {
    if subs != [] {
      var last := subs[|subs| - 1];
      NoTriggersInUntouchable(subs[..|subs| - 1]);
      if !IsEditable(last) {
        ReadingsOfConcat(Untouchable(subs[..|subs| - 1]), [last]);
        TriggersInConcat(Readings(Untouchable(subs[..|subs| - 1])), ReadingsOf(last));
        assert [last][..0] == [] && Readings([last]) == ReadingsOf(last);
      }
    }
  }

  lemma {:induction false} TriggersInRewritable(ts: seq<Trigger>, hasEnd: bool)
    ensures TriggersIn(RewritableAll(ts, hasEnd)) == EffectiveAll(ts, hasEnd)
  {
    if ts != [] {
      var front := ts[..|ts| - 1];
      TriggersInRewritable(front, hasEnd);
      assert RewritableAll(ts, hasEnd)[..|ts| - 1] == RewritableAll(front, hasEnd);
      assert EffectiveAll(ts, hasEnd) == EffectiveAll(front, hasEnd) + [Effective(ts[|ts| - 1], hasEnd)];
    }
  }

  lemma TriggersAfterApply(subs: seq<Sub>, ts: seq<Trigger>, hasEnd: bool)
    ensures TriggersIn(Readings(Applied(subs, Some(ts), hasEnd))) == EffectiveAll(ts, hasEnd)
  {
    ReadingsAfterApply(subs, ts, hasEnd);
    NoTriggersInUntouchable(subs);
    TriggersInRewritable(ts, hasEnd);
    TriggersInConcat(Readings(Untouchable(subs)), RewritableAll(ts, hasEnd));
  }

  function EffectiveAll(ts: seq<Trigger>, hasEnd: bool): (es: seq<Trigger>)
    ensures |es| == |ts| && forall i | 0 <= i < |ts| :: es[i] == Effective(ts[i], hasEnd)
  {
    seq(|ts|, i requires 0 <= i < |ts| => Effective(ts[i], hasEnd))
  }

  /** The rows a save request carries: those the editor would not reject. */
  function Accepted(rows: seq<Reminder>, allDay: bool): seq<Reminder> {
    if rows == [] then []
    else
      var front := Accepted(rows[..|rows| - 1], allDay);
      if Valid(rows[|rows| - 1], allDay) then front + [rows[|rows| - 1]] else front
  }

  lemma {:induction false} AcceptedIsFilter(rows: seq<Reminder>, allDay: bool)
    ensures forall r | r in Accepted(rows, allDay) :: Valid(r, allDay)
    ensures |Accepted(rows, allDay)| <= |rows|
    ensures Accepted(rows, allDay) == rows <==> forall i | 0 <= i < |rows| :: Valid(rows[i], allDay)
    ensures |Accepted(rows, allDay)| == |rows| ==> Accepted(rows, allDay) == rows
  {
    if rows != [] {
      AcceptedIsFilter(rows[..|rows| - 1], allDay);
    }
  }

  /** Opening a component in the editor and saving it without touching its reminders. */
  function Reopened(subs: seq<Sub>, hasEnd: bool, allDay: bool): seq<Sub> {
    AcceptedIsFilter(EditableRows(subs, allDay), allDay);
    Applied(subs, Some(Distinct(EncodeAll(Accepted(EditableRows(subs, allDay), allDay), allDay))), hasEnd)
  }

  predicate AllWholeMinutes(ts: seq<Trigger>) {
    forall i | 0 <= i < |ts| :: ts[i].offset % 60 == 0
  }

  /** No trigger is relative to an end that is missing. */
  predicate AllHaveAnchors(ts: seq<Trigger>, hasEnd: bool) {
    forall t | t in ts :: hasEnd || t.related.Start?
  }

  /** Every trigger is shown as a row that can be sent. */
  predicate AllFit(ts: seq<Trigger>, allDay: bool) {
    forall i | 0 <= i < |ts| :: Valid(Decode(ts[i], allDay), allDay)
  }

  /** Whatever alarms a component has, from this program or another: saving it untouched gives back the
      same triggers, iff all are whole minutes of an acceptable magnitude, no two coincide, and none is
      relative to an end that is missing. */
  lemma ReopeningKeepsTriggersIff(subs: seq<Sub>, hasEnd: bool, allDay: bool)
    ensures var ts := TriggersIn(Readings(subs));
      var back := TriggersIn(Readings(Reopened(subs, hasEnd, allDay)));
      back == ts <==> AllWholeMinutes(ts) && AllFit(ts, allDay) && NoDuplicates(ts) && AllHaveAnchors(ts, hasEnd)
  {
    var ts, rows := TriggersIn(Readings(subs)), EditableRows(subs, allDay);
    var sent := Accepted(rows, allDay);
    AcceptedIsFilter(rows, allDay);
    var encoded := EncodeAll(sent, allDay);
    TriggersAfterApply(subs, Distinct(encoded), hasEnd);
    DistinctKeepsElements(encoded);
    if EffectiveAll(Distinct(encoded), hasEnd) == ts {
      EncodedAreWholeMinutes(sent, allDay);
      assert AllWholeMinutes(ts);
      assert sent == rows;
      assert AllFit(ts, allDay);
    }
    if AllWholeMinutes(ts) && AllFit(ts, allDay) {
      assert sent == rows;
      forall i | 0 <= i < |ts| ensures encoded[i] == ts[i] {
        WholeMinutesRoundTrip(ts[i], allDay);
      }
      assert encoded == ts;
      DistinctShorterUnless(ts);
      DistinctUnchangedIff(ts);
      AnchorsKeepTriggers(ts, hasEnd);
    }
  }

  lemma EncodedAreWholeMinutes(rows: seq<Reminder>, allDay: bool)
    requires forall r | r in rows :: FitsKind(r, allDay)
    ensures AllWholeMinutes(Distinct(EncodeAll(rows, allDay)))
  {
    var encoded := EncodeAll(rows, allDay);
    DistinctKeepsElements(encoded);
    forall i | 0 <= i < |Distinct(encoded)| ensures Distinct(encoded)[i].offset % 60 == 0 {
      assert Distinct(encoded)[i] in encoded;
      var k :| 0 <= k < |rows| && encoded[k] == Distinct(encoded)[i];
      EncodedIsWholeMinutes(rows[k], allDay);
    }
  }

  lemma AnchorsKeepTriggers(ts: seq<Trigger>, hasEnd: bool)
    ensures EffectiveAll(ts, hasEnd) == ts <==> AllHaveAnchors(ts, hasEnd)
  {
    if EffectiveAll(ts, hasEnd) == ts {
      forall t | t in ts ensures hasEnd || t.related.Start? {
        var i :| 0 <= i < |ts| && ts[i] == t;
        assert EffectiveAll(ts, hasEnd)[i] == Effective(t, hasEnd);
      }
    }
  }

  /** On a component that this program wrote the untouched save leaves every alarm as it is, iff the
      triggers it was given are whole minutes of an acceptable magnitude and no two of them coincide. */
  lemma ReopeningIsStableIff(subs: seq<Sub>, ts: seq<Trigger>, hasEnd: bool, allDay: bool)
    ensures var saved := Applied(subs, Some(ts), hasEnd);
      var es := EffectiveAll(ts, hasEnd);
      Reopened(saved, hasEnd, allDay) == saved <==> AllWholeMinutes(es) && AllFit(es, allDay) && NoDuplicates(es)
  {
    var saved, es := Applied(subs, Some(ts), hasEnd), EffectiveAll(ts, hasEnd);
    TriggersAfterApply(subs, ts, hasEnd);
    ReopeningKeepsTriggersIff(saved, hasEnd, allDay);
    AcceptedIsFilter(EditableRows(saved, allDay), allDay);
    var again := Distinct(EncodeAll(Accepted(EditableRows(saved, allDay), allDay), allDay));
    ApplyForgetsEarlierLists(subs, Some(ts), again, hasEnd, hasEnd);
    TriggersAfterApply(saved, again, hasEnd);
    assert AllHaveAnchors(es, hasEnd);
    if EffectiveAll(again, hasEnd) == es {
      SameEffectSameAlarms(again, ts, hasEnd);
    }
  }

  lemma SameEffectSameAlarms(a: seq<Trigger>, b: seq<Trigger>, hasEnd: bool)
    requires EffectiveAll(a, hasEnd) == EffectiveAll(b, hasEnd)
    ensures DisplayAlarms(a, hasEnd) == DisplayAlarms(b, hasEnd)
  {
    forall i | 0 <= i < |a| ensures DisplayAlarm(a[i], hasEnd) == DisplayAlarm(b[i], hasEnd) {
      assert EffectiveAll(a, hasEnd)[i] == EffectiveAll(b, hasEnd)[i];
    }
  }

  lemma {:induction false} DistinctShorterUnless(ts: seq<Trigger>)
    ensures |Distinct(ts)| <= |ts|
    ensures |Distinct(ts)| == |ts| ==> Distinct(ts) == ts
  {
    if ts != [] {
      DistinctShorterUnless(ts[..|ts| - 1]);
    }
  }

  /** Two encoded rows, one before the start and one before the end, on an item without an end:
      the second save drops one of the two alarms they became. */
  lemma ReopeningCanMerge()
    ensures exists ts: seq<Trigger> :: NoDuplicates(ts) && !NoDuplicates(EffectiveAll(ts, false))
  {
    var ts := [Trigger(-600, Start), Trigger(-600, End)];
    var es := EffectiveAll(ts, false);
    assert es[0] == es[1];
    assert NoDuplicates(ts);
  }

  /** With an end every list of rows that the editor sends is stable. */
  lemma ReopeningIsStableWithEnd(subs: seq<Sub>, rows: seq<Reminder>, allDay: bool)
    requires forall r | r in rows :: FitsKind(r, allDay) && Valid(r, allDay)
    ensures var saved := Applied(subs, Some(Distinct(EncodeAll(rows, allDay))), true);
      Reopened(saved, true, allDay) == saved
  {
    var ts := Distinct(EncodeAll(rows, allDay));
    DistinctKeepsElements(EncodeAll(rows, allDay));
    EncodedAreWholeMinutes(rows, allDay);
    forall i | 0 <= i < |ts| ensures Valid(Decode(ts[i], allDay), allDay) {
      assert ts[i] in EncodeAll(rows, allDay);
      var k :| 0 <= k < |rows| && EncodeAll(rows, allDay)[k] == ts[i];
      RowRoundTrip(rows[k], allDay);
    }
    EndKeepsTriggers(ts);
    ReopeningIsStableIff(subs, ts, true, allDay);
  }

  lemma EndKeepsTriggers(ts: seq<Trigger>)
    ensures EffectiveAll(ts, true) == ts
  {
  }
}
