/** Reminder rows of the editor and the (offset, RELATED) triggers they are stored as.

    Offsets are seconds. A row says how many units before or after which end of the item the
    reminder fires; rows of all-day items also carry a clock time. */
module Reminders {
  import opened Lists
  import opened Decimal

  datatype Unit = Minutes | Hours | Days | Weeks
  datatype Anchor = Start | End
  datatype Direction = Before | After

  datatype Reminder = Reminder(value: nat, unit: Unit, time: Option<string>, anchor: Anchor, direction: Direction)

  datatype Trigger = Trigger(offset: int, related: Anchor)

  const MAX_VALUE := 10000

  /** What the encoder needs of a row: all-day rows count days or weeks and carry HH:MM, timed
      rows carry no time. */
  predicate FitsKind(r: Reminder, allDay: bool) {
    if allDay then
      (r.unit.Days? || r.unit.Weeks?) && r.time.Some? && IsClockText(r.time.value)
    else
      r.time.None?
  }

  /** Request validation. */
  predicate Valid(r: Reminder, allDay: bool) {
    r.value <= MAX_VALUE && FitsKind(r, allDay)
  }

  function InMinutes(value: nat, unit: Unit): nat {
    match unit
    case Minutes => value
    case Hours => 60 * value
    case Days => 1440 * value
    case Weeks => 10080 * value
  }

  // ----- Encoding -----

  function Signed(direction: Direction, magnitude: int): int {
    if direction.After? then magnitude else -magnitude
  }

  function ClockMinutes(c: Clock): nat {
    c.hour * 60 + c.minute
  }

  /** Signed whole minutes from the anchor; an all-day anchor is midnight. */
  function RowMinutes(r: Reminder, allDay: bool): int
    requires FitsKind(r, allDay)
  {
    Signed(r.direction, InMinutes(r.value, r.unit))
    + if allDay then ClockMinutes(ParseClock(r.time.value)) else 0
  }

  function Encode(r: Reminder, allDay: bool): Trigger
    requires FitsKind(r, allDay)
  {
    Trigger(RowMinutes(r, allDay) * 60, r.anchor)
  }

  function EncodeAll(rs: seq<Reminder>, allDay: bool): (ts: seq<Trigger>)
    requires forall r | r in rs :: FitsKind(r, allDay)
    ensures |ts| == |rs| && forall i | 0 <= i < |rs| :: ts[i] == Encode(rs[i], allDay)
  {
    seq(|rs|, i requires 0 <= i < |rs| => Encode(rs[i], allDay))
  }

  /** `_reminder_deltas`: encode every row, dropping a trigger already produced by an earlier one. */
  method Deltas(rows: Option<seq<Reminder>>, allDay: bool) returns (triggers: Option<seq<Trigger>>)
    requires rows.Some? ==> forall r | r in rows.value :: FitsKind(r, allDay)
    ensures rows.None? ==> triggers == None
    ensures rows.Some? ==> triggers == Some(Distinct(EncodeAll(rows.value, allDay)))
  {
    if rows.None? {
      return None;
    }
    var rs := rows.value;
    ghost var encoded := EncodeAll(rs, allDay);
    var deltas := [];
    for i := 0 to |rs|
      invariant deltas == Distinct(encoded[..i])
    {
      var delta := Encode(rs[i], allDay);
      assert encoded[..i + 1][..i] == encoded[..i];
      if delta !in deltas {
        deltas := deltas + [delta];
      }
    }
    assert encoded[..|rs|] == encoded;
    return Some(deltas);
  }

  // ----- Decoding -----

  /** Python's `round(n / d)`: to the nearest integer, halves to the even one. */
  function RoundHalfEven(n: int, d: int): int
    requires 0 < d
  {
    var q := n / d;
    var twice := 2 * (n % d);
    if twice < d then q
    else if d < twice then q + 1
    else if q % 2 == 0 then q else q + 1
  }

  function Abs(n: int): nat {
    if n < 0 then -n else n
  }

  /** `_timedelta_to_value_unit`: the largest unit that divides the offset. */
  function DecodeTimed(t: Trigger): Reminder {
    var minutes := RoundHalfEven(Abs(t.offset), 60);
    var direction := if 0 < t.offset then After else Before;
    if minutes != 0 && minutes % 10080 == 0 then Reminder(minutes / 10080, Weeks, None, t.related, direction)
    else if minutes != 0 && minutes % 1440 == 0 then Reminder(minutes / 1440, Days, None, t.related, direction)
    else if minutes != 0 && minutes % 60 == 0 then Reminder(minutes / 60, Hours, None, t.related, direction)
    else Reminder(minutes, Minutes, None, t.related, direction)
  }

  /** `_timedelta_to_allday_parts`: a whole number of days and a time of day. */
  function DecodeAllDay(t: Trigger): Reminder {
    var total := RoundHalfEven(t.offset, 60);
    var timeOfDay := total % 1440;
    var dayIndex := (total - timeOfDay) / 1440;
    var days := Abs(dayIndex);
    var clock := PrintClock(Clock(timeOfDay / 60, timeOfDay % 60));
    var direction := if 0 < dayIndex then After else Before;
    if 0 < days && days % 7 == 0 then Reminder(days / 7, Weeks, Some(clock), t.related, direction)
    else Reminder(days, Days, Some(clock), t.related, direction)
  }

  function Decode(t: Trigger, allDay: bool): (r: Reminder)
    ensures FitsKind(r, allDay)
  {
    if allDay then
      var r := DecodeAllDay(t);
      ClockRoundTrip(ClockOf(t));
      r
    else
      DecodeTimed(t)
  }

  function ClockOf(t: Trigger): (c: Clock)
    ensures IsClock(c)
  {
    var timeOfDay := RoundHalfEven(t.offset, 60) % 1440;
    Clock(timeOfDay / 60, timeOfDay % 60)
  }

  // ----- Round trips -----

  /** Rounding is to within half a unit, and to an even count at a tie. */
  lemma RoundsToNearest(n: int, d: int)
    requires 0 < d
    ensures var r := RoundHalfEven(n, d);
      && -d <= 2 * (n - r * d) <= d
      && (2 * (n - r * d) == d || 2 * (n - r * d) == -d ==> r % 2 == 0)
  {
    var q := n / d;
    assert n == q * d + n % d;
    assert (q + 1) * d == q * d + d;
  }

  lemma RoundExactIff(n: int)
    ensures RoundHalfEven(n, 60) * 60 == n <==> n % 60 == 0
  {
  }

  /** The row read from a trigger is worth the trigger's offset, rounded to whole minutes. */
  lemma DecodedMinutes(t: Trigger, allDay: bool)
    ensures RowMinutes(Decode(t, allDay), allDay)
         == if allDay || 0 <= t.offset then RoundHalfEven(t.offset, 60) else -RoundHalfEven(-t.offset, 60)
  {
    if allDay {
      var total := RoundHalfEven(t.offset, 60);
      var r := DecodeAllDay(t);
      ClockRoundTrip(ClockOf(t));
      assert ClockMinutes(ParseClock(r.time.value)) == total % 1440;
      LargestAllDayUnit(t);
    } else {
      LargestTimedUnit(t);
    }
  }

  lemma LargestAllDayUnit(t: Trigger)
    ensures var r := DecodeAllDay(t);
      var total := RoundHalfEven(t.offset, 60);
      Signed(r.direction, InMinutes(r.value, r.unit)) == total - total % 1440
  {
    var total := RoundHalfEven(t.offset, 60);
    var dayIndex := (total - total % 1440) / 1440;
    assert 1440 * dayIndex == total - total % 1440;
    var days := Abs(dayIndex);
    if days % 7 == 0 {
      assert 10080 * (days / 7) == 1440 * days;
    }
  }

  lemma LargestTimedUnit(t: Trigger)
    ensures var r := DecodeTimed(t);
      && InMinutes(r.value, r.unit) == RoundHalfEven(Abs(t.offset), 60)
      && (r.direction.After? <==> 0 < t.offset)
  {
  }

  /** Storing what was read restores the trigger, exactly for offsets of whole minutes. */
  lemma TriggerRoundTripIff(t: Trigger, allDay: bool)
    ensures Encode(Decode(t, allDay), allDay) == t <==> t.offset % 60 == 0
  {
    DecodedMinutes(t, allDay);
    RoundExactIff(t.offset);
    RoundExactIff(-t.offset);
  }

  /** No larger unit fits, and zero counts as `before`. */
  predicate IsNormal(r: Reminder, allDay: bool) {
    && (r.value == 0 ==> r.direction.Before? && r.unit == (if allDay then Days else Minutes))
    && match r.unit
       case Minutes => r.value == 0 || r.value % 60 != 0
       case Hours => r.value % 24 != 0
       case Days => r.value == 0 || r.value % 7 != 0
       case Weeks => true
  }

  /** Reading what was stored gives the normal form of the row: the same trigger, no larger unit
      that fits, and still acceptable to request validation. */
  lemma RowRoundTrip(r: Reminder, allDay: bool)
    requires FitsKind(r, allDay)
    ensures var back := Decode(Encode(r, allDay), allDay);
      && IsNormal(back, allDay)
      && Encode(back, allDay) == Encode(r, allDay)
      && (Valid(r, allDay) ==> Valid(back, allDay))
  {
    EncodedIsWholeMinutes(r, allDay);
    WholeMinutesRoundTrip(Encode(r, allDay), allDay);
    NormalIsSmallest(Decode(Encode(r, allDay), allDay), r, allDay);
  }

  lemma EncodedIsWholeMinutes(r: Reminder, allDay: bool)
    requires FitsKind(r, allDay)
    ensures Encode(r, allDay).offset % 60 == 0
  {
    TimesSixty(RowMinutes(r, allDay));
  }

  lemma TimesSixty(n: int)
    ensures n * 60 % 60 == 0
  {
  }

  lemma WholeMinutesRoundTrip(t: Trigger, allDay: bool)
    requires t.offset % 60 == 0
    ensures Encode(Decode(t, allDay), allDay) == t
    ensures IsNormal(Decode(t, allDay), allDay)
  {
    TriggerRoundTripIff(t, allDay);
    DecodedIsNormal(t, allDay);
  }

  lemma DecodedIsNormal(t: Trigger, allDay: bool)
    requires t.offset % 60 == 0
    ensures IsNormal(Decode(t, allDay), allDay)
  {
    if allDay {
      AllDayIsNormal(t);
    } else {
      TimedIsNormal(t);
    }
  }

  lemma AllDayIsNormal(t: Trigger)
    ensures IsNormal(DecodeAllDay(t), true)
  {
  }

  lemma TimedIsNormal(t: Trigger)
    requires t.offset % 60 == 0
    ensures IsNormal(DecodeTimed(t), false)
  {
    RoundExactIff(Abs(t.offset));
    var minutes := RoundHalfEven(Abs(t.offset), 60);
    assert minutes == 0 ==> t.offset == 0;
    LargestUnitIsExact(minutes);
  }

  lemma LargestUnitIsExact(minutes: int)
    ensures minutes % 1440 == 0 && minutes % 10080 != 0 ==> minutes / 1440 % 7 != 0
    ensures minutes % 60 == 0 && minutes % 1440 != 0 ==> minutes / 60 % 24 != 0
  {
    if minutes % 1440 == 0 {
      var d := minutes / 1440;
      assert minutes == 1440 * d;
      assert d % 7 == 0 ==> minutes == 10080 * (d / 7);
    }
    if minutes % 60 == 0 {
      var h := minutes / 60;
      assert minutes == 60 * h;
      assert h % 24 == 0 ==> minutes == 1440 * (h / 24);
    }
  }

  /** The signed day or minute count and the clock time can be read off an offset. */
  lemma OffsetDetermines(a: Reminder, b: Reminder, allDay: bool)
    requires FitsKind(a, allDay) && FitsKind(b, allDay)
    requires Encode(a, allDay).offset == Encode(b, allDay).offset
    ensures Signed(a.direction, InMinutes(a.value, a.unit)) == Signed(b.direction, InMinutes(b.value, b.unit))
    ensures allDay ==> ParseClock(a.time.value) == ParseClock(b.time.value)
  {
    if allDay {
      var p, q := ParseClock(a.time.value), ParseClock(b.time.value);
      DayAndClock(SignedDays(a), p, SignedDays(b), q);
    }
  }

  function SignedDays(r: Reminder): int {
    Signed(r.direction, if r.unit.Weeks? then 7 * r.value else r.value)
  }

  lemma DayAndClock(x: int, p: Clock, y: int, q: Clock)
    requires IsClock(p) && IsClock(q)
    requires 1440 * x + ClockMinutes(p) == 1440 * y + ClockMinutes(q)
    ensures x == y && p == q
  {
  }

  /** No larger unit divides the count. */
  predicate IsLargest(v: nat, u: Unit) {
    v == 0 || u.Weeks? || (u.Days? && v % 7 != 0) || (u.Hours? && v % 24 != 0) || (u.Minutes? && v % 60 != 0)
  }

  lemma LargerUnitIsSmallerValue(v: nat, u: Unit, w: nat, x: Unit)
    requires InMinutes(v, u) == InMinutes(w, x) && IsLargest(v, u)
    ensures v <= w
  {
    match u
    case Minutes => if !x.Minutes? { Sixties(v, if x.Hours? then w else if x.Days? then 24 * w else 168 * w); }
    case Hours => if x.Days? || x.Weeks? { TwentyFours(v, if x.Days? then w else 7 * w); }
    case Days => if x.Weeks? { Sevens(v, w); }
    case Weeks =>
  }

  lemma Sixties(v: nat, n: nat)
    requires v == 60 * n && (v == 0 || v % 60 != 0)
    ensures v == 0
  {
  }

  lemma TwentyFours(v: nat, n: nat)
    requires v == 24 * n && (v == 0 || v % 24 != 0)
    ensures v == 0
  {
  }

  lemma Sevens(v: nat, n: nat)
    requires v == 7 * n && (v == 0 || v % 7 != 0)
    ensures v == 0
  {
  }

  /** Among rows with one trigger, a normal one has the least value. */
  lemma NormalIsSmallest(a: Reminder, b: Reminder, allDay: bool)
    requires FitsKind(a, allDay) && FitsKind(b, allDay)
    requires IsNormal(a, allDay) && Encode(a, allDay) == Encode(b, allDay)
    ensures a.value <= b.value
  {
    OffsetDetermines(a, b, allDay);
    assert InMinutes(a.value, a.unit) == InMinutes(b.value, b.unit);
    LargerUnitIsSmallerValue(a.value, a.unit, b.value, b.unit);
  }

  /** Normal forms are unique: two of them with the same trigger are the same row. */
  lemma NormalFormIsUnique(a: Reminder, b: Reminder, allDay: bool)
    requires FitsKind(a, allDay) && FitsKind(b, allDay)
    requires IsNormal(a, allDay) && IsNormal(b, allDay)
    requires Encode(a, allDay) == Encode(b, allDay)
    ensures a == b
  {
    OffsetDetermines(a, b, allDay);
    NormalIsSmallest(a, b, allDay);
    NormalIsSmallest(b, a, allDay);
    if allDay {
      ClockTextRoundTrip(a.time.value);
      ClockTextRoundTrip(b.time.value);
    }
  }

  // ----- Which stored triggers can be saved again -----

  predicate FitsSomeUnit(minutes: nat) {
    || minutes <= MAX_VALUE
    || (minutes % 60 == 0 && minutes <= 60 * MAX_VALUE)
    || (minutes % 1440 == 0 && minutes <= 1440 * MAX_VALUE)
    || (minutes % 10080 == 0 && minutes <= 10080 * MAX_VALUE)
  }

  predicate FitsDaysOrWeeks(days: nat) {
    days <= MAX_VALUE || (days % 7 == 0 && days <= 7 * MAX_VALUE)
  }

  /** The row shown for a stored trigger passes request validation iff its magnitude fits one of the
      units; for a trigger of whole minutes that is iff some acceptable row stands for it at all. */
  lemma ReopenedRowIsValidIff(t: Trigger, allDay: bool)
    ensures !allDay ==> (Valid(Decode(t, allDay), allDay) <==> FitsSomeUnit(RoundHalfEven(Abs(t.offset), 60)))
    ensures allDay ==> (Valid(Decode(t, allDay), allDay) <==> FitsDaysOrWeeks(Abs(RoundHalfEven(t.offset, 60) / 1440)))
    ensures t.offset % 60 == 0 ==>
      (Valid(Decode(t, allDay), allDay) <==> exists r :: Valid(r, allDay) && Encode(r, allDay) == t)
  {
    if allDay {
      AllDayFits(t);
    } else {
      TimedFits(t);
    }
    if t.offset % 60 == 0 {
      WholeMinutesRoundTrip(t, allDay);
      if r :| Valid(r, allDay) && Encode(r, allDay) == t {
        NormalIsSmallest(Decode(t, allDay), r, allDay);
      }
    }
  }

  lemma TimedFits(t: Trigger)
    ensures DecodeTimed(t).value <= MAX_VALUE <==> FitsSomeUnit(RoundHalfEven(Abs(t.offset), 60))
  {
  }

  lemma AllDayFits(t: Trigger)
    ensures DecodeAllDay(t).value <= MAX_VALUE <==> FitsDaysOrWeeks(Abs(RoundHalfEven(t.offset, 60) / 1440))
  {
    var total := RoundHalfEven(t.offset, 60);
    assert (total - total % 1440) / 1440 == total / 1440;
  }

  /** An alarm 10001 minutes ahead, which another client may store, is shown as a row that the editor
      leaves out when it saves; one of 10000 minutes is the longest in minutes that it sends. */
  lemma LongAlarmIsDropped()
    ensures var t := Trigger(-600060, Start); t.offset % 60 == 0 && !Valid(Decode(t, false), false)
    ensures Valid(Reminder(10000, Minutes, None, Start, Before), false)
    ensures !Valid(Reminder(10001, Minutes, None, Start, Before), false)
  {
    ReopenedRowIsValidIff(Trigger(-600060, Start), false);
  }
}
