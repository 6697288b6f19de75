/** The editor's structured recurrence rule and the RRULE parts it is stored as. */
module RuleCodec {
  import opened Lists
  import opened Ascii
  import opened Decimal
  import opened Recurrence

  /** The rule model of the API. Instants are seconds; the UNTIL of an all-day item is a date. */
  datatype EditorRule = EditorRule(
    freq: string,
    interval: int,
    monthlyMode: Option<string>,
    ordinal: Option<int>,
    count: Option<int>,
    until: Option<int>)

  datatype Parts = Parts(
    freq: string,
    interval: Option<int>,
    byDay: Option<string>,
    byMonthDay: Option<int>,
    count: Option<int>,
    until: Option<int>)

  /** What the codec reads of the start: day of the month, weekday (Monday is 0), date or instant. */
  datatype Start = Start(day: int, weekday: nat, allDay: bool)

  predicate IsStart(s: Start) {
    1 <= s.day <= 31 && s.weekday < 7
  }

  const FREQUENCIES := ["yearly", "monthly", "weekly", "daily", "hourly"]

  const WEEKDAYS := ["MO", "TU", "WE", "TH", "FR", "SA", "SU"]

  function NthWeekday(s: Start): int {
    (s.day - 1) / 7 + 1
  }

  /** Midnight of the date of `u`. */
  function DateOf(u: int): int {
    u - u % DAY
  }

  /** `_build_rrule`; `None` is the ValueError for an unsupported frequency. */
  function Build(r: EditorRule, s: Start): Option<Parts>
    requires IsStart(s)
  {
    if Lower(r.freq) !in FREQUENCIES then None
    else
      var freq := Upper(Lower(r.freq));
      var byWeekday := r.monthlyMode == Some("weekday");
      var ordinal := if r.ordinal.Some? then r.ordinal.value else NthWeekday(s);
      var counted := r.count.Some? && r.count.value != 0;
      Some(Parts(
        freq,
        if 1 < r.interval then Some(r.interval) else None,
        if freq == "MONTHLY" && byWeekday then Some(Print(ordinal) + WEEKDAYS[s.weekday]) else None,
        if freq == "MONTHLY" && !byWeekday then Some(if 29 <= s.day then -1 else s.day) else None,
        if counted then r.count else None,
        if counted || r.until.None? then None
        else if s.allDay then Some(DateOf(r.until.value))
        else r.until))
  }

  /** `_rrule_to_struct`. */
  function ToStruct(p: Parts): EditorRule {
    var monthly := Lower(p.freq) == "monthly";
    EditorRule(
      Lower(p.freq),
      if p.interval.Some? then p.interval.value else 1,
      if !monthly then None else if p.byDay.Some? then Some("weekday") else Some("monthday"),
      if monthly && p.byDay.Some? then Parse(DropLast2(p.byDay.value)) else None,
      p.count,
      if p.count.Some? then None else p.until)
  }

  function DropLast2(token: string): string {
    if |token| < 2 then "" else token[..|token| - 2]
  }

  lemma FrequencyCase(freq: string)
    requires freq in FREQUENCIES
    ensures Lower(freq) == freq && Lower(Upper(freq)) == freq
    ensures freq == "monthly" <==> Upper(freq) == "MONTHLY"
  {
    forall i | 0 <= i < |freq| ensures 'a' <= freq[i] <= 'z' {
    }
    assert forall i | 0 <= i < |freq| :: LowerChar(UpperChar(freq[i])) == freq[i];
    assert Lower("MONTHLY") == "monthly";
    assert Upper("monthly") == "MONTHLY";
  }

  lemma OrdinalIsRead(ordinal: int, weekday: nat)
    requires weekday < 7
    ensures Parse(DropLast2(Print(ordinal) + WEEKDAYS[weekday])) == Some(ordinal)
  {
    PrintParses(ordinal);
    assert |WEEKDAYS[weekday]| == 2;
    assert DropLast2(Print(ordinal) + WEEKDAYS[weekday]) == Print(ordinal);
  }

  /** The structured form of a stored rule, built again for the same start, is the stored rule. */
  lemma StoredRuleRoundTrip(r: EditorRule, s: Start)
    requires IsStart(s) && Build(r, s).Some?
    ensures Build(ToStruct(Build(r, s).value), s) == Build(r, s)
  {
    RebuiltBesidesByDay(r, s);
    RebuiltByDay(r, s);
  }

  lemma RebuiltBesidesByDay(r: EditorRule, s: Start)
    requires IsStart(s) && Build(r, s).Some?
    ensures var p := Build(r, s).value;
      var again := Build(ToStruct(p), s);
      again.Some? && again.value.(byDay := p.byDay) == p
  {
    var p := Build(r, s).value;
    StoredFrequency(r, s);
    assert Build(ToStruct(p), s).Some? && Build(ToStruct(p), s).value.freq == p.freq;
    RebuiltBounds(r, s);
    RebuiltMonthDay(r, s);
  }

  lemma RebuiltBounds(r: EditorRule, s: Start)
    requires IsStart(s) && Build(r, s).Some? && Build(ToStruct(Build(r, s).value), s).Some?
    ensures var p, again := Build(r, s).value, Build(ToStruct(Build(r, s).value), s).value;
      again.interval == p.interval && again.count == p.count && again.until == p.until
  {
    if r.until.Some? {
      DateOfTwice(r.until.value);
    }
  }

  lemma DateOfTwice(u: int)
    ensures DateOf(DateOf(u)) == DateOf(u)
  {
  }

  lemma RebuiltMonthDay(r: EditorRule, s: Start)
    requires IsStart(s) && Build(r, s).Some? && Build(ToStruct(Build(r, s).value), s).Some?
    ensures Build(ToStruct(Build(r, s).value), s).value.byMonthDay == Build(r, s).value.byMonthDay
  {
    StoredFrequency(r, s);
  }

  lemma RebuiltByDay(r: EditorRule, s: Start)
    requires IsStart(s) && Build(r, s).Some? && Build(ToStruct(Build(r, s).value), s).Some?
    ensures Build(ToStruct(Build(r, s).value), s).value.byDay == Build(r, s).value.byDay
  {
    StoredFrequency(r, s);
    if Build(r, s).value.byDay.Some? {
      StoredByDay(r, s);
    }
  }

  lemma StoredByDay(r: EditorRule, s: Start)
    requires IsStart(s) && Build(r, s).Some? && Build(r, s).value.byDay.Some?
    ensures var token := Build(r, s).value.byDay.value;
      var ordinal := Parse(DropLast2(token));
      ordinal.Some? && token == Print(ordinal.value) + WEEKDAYS[s.weekday]
  {
    OrdinalIsRead(if r.ordinal.Some? then r.ordinal.value else NthWeekday(s), s.weekday);
  }

  lemma StoredFrequency(r: EditorRule, s: Start)
    requires IsStart(s) && Build(r, s).Some?
    ensures var p := Build(r, s).value;
      && Lower(p.freq) in FREQUENCIES && Lower(Lower(p.freq)) == Lower(p.freq)
      && Upper(Lower(p.freq)) == p.freq
      && (p.freq == "MONTHLY" <==> Lower(p.freq) == "monthly")
  {
    FrequencyCase(Lower(r.freq));
  }

  /** What a stored rule is read back as: the request with its defaults filled in. The weekday is the
      start's, a zero count is no count, and COUNT hides UNTIL. */
  lemma StructIsRequestWithDefaults(r: EditorRule, s: Start)
    requires IsStart(s) && Build(r, s).Some?
    ensures var back := ToStruct(Build(r, s).value);
      var counted := r.count.Some? && r.count.value != 0;
      var byWeekday := r.monthlyMode == Some("weekday");
      && back.freq == Lower(r.freq)
      && back.interval == (if r.interval < 1 then 1 else r.interval)
      && back.count == (if counted then r.count else None)
      && (counted ==> back.until == None)
      && (!counted && !s.allDay ==> back.until == r.until)
      && (!counted && s.allDay && r.until.Some? ==> back.until == Some(DateOf(r.until.value)))
      && (back.freq != "monthly" ==> back.monthlyMode == None && back.ordinal == None)
      && (back.freq == "monthly" && byWeekday ==>
            back.monthlyMode == Some("weekday")
            && back.ordinal == Some(if r.ordinal.Some? then r.ordinal.value else NthWeekday(s)))
      && (back.freq == "monthly" && !byWeekday ==> back.monthlyMode == Some("monthday") && back.ordinal == None)
  {
    FrequencyCase(Lower(r.freq));
    OrdinalIsRead(if r.ordinal.Some? then r.ordinal.value else NthWeekday(s), s.weekday);
  }

  /** The day a BYMONTHDAY value names in a month of `length` days; negative values count from its end. */
  function DayInMonth(byMonthDay: int, length: int): int {
    if byMonthDay < 0 then length + 1 + byMonthDay else byMonthDay
  }

  /** The code of a weekday, counted from Monday, as section 3.3.10 of RFC 5545 has it. */
  predicate IsWeekdayCode(code: string, weekday: nat) {
    match code
    case "MO" => weekday == 0
    case "TU" => weekday == 1
    case "WE" => weekday == 2
    case "TH" => weekday == 3
    case "FR" => weekday == 4
    case "SA" => weekday == 5
    case "SU" => weekday == 6
    case _ => false
  }

  /** A rule by weekday is stored as an ordinal, the one asked for or that of the start, and the weekday of the
      start. */
  lemma ByDayNamesStart(r: EditorRule, s: Start)
    requires IsStart(s) && Build(r, s).Some? && Build(r, s).value.byDay.Some?
    ensures var token := Build(r, s).value.byDay.value;
      && 2 <= |token|
      && IsWeekdayCode(token[|token| - 2..], s.weekday)
      && Parse(token[..|token| - 2]) == Some(if r.ordinal.Some? then r.ordinal.value else NthWeekday(s))
  {
    var ordinal := if r.ordinal.Some? then r.ordinal.value else NthWeekday(s);
    OrdinalIsRead(ordinal, s.weekday);
    assert |WEEKDAYS[s.weekday]| == 2;
    var token := Print(ordinal) + WEEKDAYS[s.weekday];
    assert token[|token| - 2..] == WEEKDAYS[s.weekday];
  }

  /** Whatever is stored, its structured form has an interval, at most one bound, COUNT before UNTIL, and a mode
      iff the rule is monthly: by weekday iff it has a BYDAY. */
  lemma StructReadsAnyRule(p: Parts)
    ensures var back := ToStruct(p);
      && (back.monthlyMode.Some? <==> back.freq == "monthly")
      && (back.monthlyMode == Some("weekday") <==> back.freq == "monthly" && p.byDay.Some?)
      && (back.monthlyMode == Some("monthday") <==> back.freq == "monthly" && p.byDay.None?)
      && back.interval == (if p.interval.Some? then p.interval.value else 1)
      && back.count == p.count
      && back.until == (if p.count.Some? then None else p.until)
  {
  }

  /** A rule is stored iff its frequency is one of five, in any letter case; a monthly one names a weekday if
      asked for by weekday and otherwise a day of the month, other rules name neither. */
  lemma MonthlyRulesNameADay(r: EditorRule, s: Start)
    requires IsStart(s)
    ensures Build(r, s).Some? <==> Lower(r.freq) in ["yearly", "monthly", "weekly", "daily", "hourly"]
    ensures Build(r, s).Some? ==>
      var p, monthly, byWeekday := Build(r, s).value, Lower(r.freq) == "monthly", r.monthlyMode == Some("weekday");
      && (p.byMonthDay.Some? <==> monthly && !byWeekday)
      && (p.byDay.Some? <==> monthly && byWeekday)
      && Lower(p.freq) == Lower(r.freq)
  {
    if Build(r, s).Some? {
      StoredFrequency(r, s);
      FrequencyCase(Lower(r.freq));
    }
  }

  /** A monthly rule on the day of the month has an occurrence in every month, on the day of its start
      iff every month has that day, and otherwise on the last one. */
  lemma MonthDayExistsInEveryMonth(r: EditorRule, s: Start)
    requires IsStart(s) && Build(r, s).Some? && Build(r, s).value.byMonthDay.Some?
    ensures var d := Build(r, s).value.byMonthDay.value;
      && (forall length | 28 <= length <= 31 :: 1 <= DayInMonth(d, length) <= length)
      && ((forall length | 28 <= length <= 31 :: DayInMonth(d, length) == s.day) <==> s.day <= 28)
      && (28 < s.day ==> forall length | 28 <= length <= 31 :: DayInMonth(d, length) == length)
  {
    var d := Build(r, s).value.byMonthDay.value;
    assert 28 < s.day ==> DayInMonth(d, 28) != s.day;
  }

  /** The ordinal derived for "the Nth weekday" is that of the start among the equal weekdays of its
      month. */
  lemma DerivedOrdinalIsTheStarts(s: Start)
    requires IsStart(s)
    ensures 1 <= NthWeekday(s) <= 5
    ensures forall n :: 7 * (n - 1) < s.day <= 7 * n <==> n == NthWeekday(s)
  {
  }

  /** COUNT wins when both bounds arrive, and a stored rule never has both. */
  lemma CountWins(r: EditorRule, s: Start)
    requires IsStart(s) && Build(r, s).Some?
    ensures var p := Build(r, s).value;
      && (p.count.None? || p.until.None?)
      && (r.count.Some? && r.count.value != 0 ==> p.count == r.count && p.until == None)
  {
  }

  // ----- Through the editor form -----

  /** What the form sends back for a structured rule: no ordinal, a positive count, and an UNTIL of
      23:59:59 on its date. */
  function ThroughForm(r: EditorRule): EditorRule {
    EditorRule(
      r.freq,
      if r.interval < 1 then 1 else r.interval,
      r.monthlyMode,
      None,
      if r.count.Some? then Some(if r.count.value < 1 then 1 else r.count.value) else None,
      if r.count.Some? || r.until.None? then None else Some(DayEnd(r.until.value)))
  }

  /** Whatever it was given, the form sends a positive interval and count, no ordinal, and an UNTIL only without a
      count. */
  lemma FormSends(r: EditorRule)
    ensures var sent := ThroughForm(r);
      && 0 < sent.interval && (0 < r.interval ==> sent.interval == r.interval)
      && sent.ordinal == None
      && (sent.count.Some? <==> r.count.Some?)
      && (sent.count.Some? ==> 0 < sent.count.value && (0 < r.count.value ==> sent.count == r.count))
      && (sent.until.Some? <==> r.until.Some? && r.count.None?)
      && (sent.until.Some? ==>
            sent.until.value % DAY == DAY - 1 && sent.until.value - DAY < r.until.value <= sent.until.value)
  {
  }

  /** The bound survives the form: counts are positive and a timed UNTIL already ends its day. */
  predicate BoundFitsForm(p: Parts, s: Start) {
    && (p.count.Some? ==> 0 < p.count.value)
    && (p.until.Some? && !s.allDay ==> p.until.value % DAY == DAY - 1)
  }

  predicate OrdinalFitsForm(r: EditorRule, s: Start) {
    var byWeekday := Lower(r.freq) == "monthly" && r.monthlyMode == Some("weekday");
    byWeekday && r.ordinal.Some? ==> r.ordinal.value == NthWeekday(s)
  }

  /** Opening a stored rule in the form and saving it keeps it, iff its ordinal is the one its start
      has and its bound is one the form can express. */
  lemma FormRoundTripIff(r: EditorRule, s: Start)
    requires IsStart(s) && Build(r, s).Some?
    ensures var p := Build(r, s).value;
      Build(ThroughForm(ToStruct(p)), s) == Some(p) <==> OrdinalFitsForm(r, s) && BoundFitsForm(p, s)
  {
    var p := Build(r, s).value;
    FormChangesOnly(r, s);
    SameByDayIff(r, s);
    if p.until.Some? {
      FormUntil(p.until.value, s.allDay);
    }
  }

  lemma SameByDayIff(r: EditorRule, s: Start)
    requires IsStart(s) && Build(r, s).Some?
    ensures var p := Build(r, s).value;
      p.byDay.Some? && p.byDay.value != Print(NthWeekday(s)) + WEEKDAYS[s.weekday] <==> !OrdinalFitsForm(r, s)
  {
    FrequencyCase(Lower(r.freq));
    SameTokenIff(if r.ordinal.Some? then r.ordinal.value else NthWeekday(s), NthWeekday(s), s.weekday);
  }

  /** The form can change three parts of a stored rule and leaves the others. */
  lemma FormChangesOnly(r: EditorRule, s: Start)
    requires IsStart(s) && Build(r, s).Some?
    ensures var p := Build(r, s).value;
      Build(ThroughForm(ToStruct(p)), s) == Some(p.(
        byDay := if p.byDay.Some? then Some(Print(NthWeekday(s)) + WEEKDAYS[s.weekday]) else None,
        count := if p.count.Some? && p.count.value < 1 then Some(1) else p.count,
        until := if p.until.None? then None
                 else if s.allDay then Some(DateOf(DayEnd(p.until.value))) else Some(DayEnd(p.until.value))))
  {
    StoredFrequency(r, s);
  }

  lemma FormUntil(u: int, allDay: bool)
    ensures DayEnd(u) == u <==> u % DAY == DAY - 1
    ensures DateOf(DayEnd(DateOf(u))) == DateOf(u)
  {
  }

  lemma SameTokenIff(a: int, b: int, weekday: nat)
    requires weekday < 7
    ensures Print(a) + WEEKDAYS[weekday] == Print(b) + WEEKDAYS[weekday] <==> a == b
  {
    OrdinalIsRead(a, weekday);
    OrdinalIsRead(b, weekday);
  }

  /** "The last Friday" of a start on the fourth Friday becomes "the fourth Friday". */
  lemma FormChangesLastWeekday()
    ensures exists r: EditorRule, s: Start ::
      IsStart(s) && Build(r, s).Some? && Build(ThroughForm(ToStruct(Build(r, s).value)), s) != Build(r, s)
  {
    var r := EditorRule("monthly", 1, Some("weekday"), Some(-1), None, None);
    var s := Start(23, 4, false);
    assert Lower("monthly") == "monthly" && FREQUENCIES[1] == "monthly";
    FormRoundTripIff(r, s);
  }

  // ----- Fixed-step rules -----

  function StepSeconds(freq: string): int {
    if freq == "HOURLY" then 3600
    else if freq == "DAILY" then DAY
    else if freq == "WEEKLY" then 7 * DAY
    else 0
  }

  /** The fixed-step rule the parts denote, if they denote one. */
  function FixedStep(p: Parts): Option<Rule> {
    var step := StepSeconds(p.freq) * if p.interval.Some? then p.interval.value else 1;
    if step <= 0 || p.byDay.Some? || p.byMonthDay.Some? then None
    else Some(Rule(step,
      if p.count.Some? then Count(if p.count.value < 0 then 0 else p.count.value)
      else if p.until.Some? then Until(p.until.value)
      else Forever))
  }

  /** On fixed-step rules of timed items the form does what `EditorRoundTrip` says. */
  lemma FormRoundsUntil(r: EditorRule, s: Start)
    requires IsStart(s) && !s.allDay && Build(r, s).Some? && FixedStep(Build(r, s).value).Some?
    requires Build(r, s).value.count.Some? ==> 0 < Build(r, s).value.count.value
    ensures var p := Build(r, s).value;
      var back := Build(ThroughForm(ToStruct(p)), s);
      back.Some? && FixedStep(back.value) == Some(EditorRoundTrip(FixedStep(p).value))
  {
    FrequencyCase(Lower(r.freq));
  }
}
