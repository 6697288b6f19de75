/** Fixed-step recurrence rules on an integer timeline of seconds, and the helpers that
    count through, truncate, shift and continue a rule.

    A rule generates slots `Nth(anchor, step, 0), Nth(anchor, step, 1), ...` for as long as
    they are live: forever, for the first COUNT of them, or up to and including UNTIL. */
module Recurrence {
  type Step = n: int | 0 < n witness 1

  datatype Bound = Forever | Count(n: nat) | Until(last: int)

  datatype Rule = Rule(step: Step, bound: Bound)

  const DAY := 86400

  // ----- Slots -----

  function Nth(anchor: int, step: Step, i: nat): int {
    if i == 0 then anchor else Nth(anchor, step, i - 1) + step
  }

  /** Does a generator that has yielded `i` slots go on to yield `t`? */
  predicate LiveAt(rule: Rule, i: nat, t: int) {
    match rule.bound
    case Forever => true
    case Count(n) => i < n
    case Until(last) => t <= last
  }

  predicate Live(anchor: int, rule: Rule, i: nat) {
    LiveAt(rule, i, Nth(anchor, rule.step, i))
  }

  ghost predicate IsSlot(anchor: int, rule: Rule, t: int) {
    exists i: nat :: Nth(anchor, rule.step, i) == t && Live(anchor, rule, i)
  }

  lemma {:induction false} NthIsAffine(anchor: int, step: Step, i: nat)
    ensures Nth(anchor, step, i) == anchor + i * step
  {
    if i != 0 {
      NthIsAffine(anchor, step, i - 1);
    }
  }

  lemma {:induction false} NthShifts(anchor: int, step: Step, i: nat, d: int)
    ensures Nth(anchor + d, step, i) == Nth(anchor, step, i) + d
  {
    if i != 0 {
      NthShifts(anchor, step, i - 1, d);
    }
  }

  lemma {:induction false} NthContinues(anchor: int, step: Step, k: nat, j: nat)
    ensures Nth(Nth(anchor, step, k), step, j) == Nth(anchor, step, k + j)
  {
    if j != 0 {
      NthContinues(anchor, step, k, j - 1);
    }
  }

  lemma {:induction false} NthIncreases(anchor: int, step: Step, i: nat, j: nat)
    requires i < j
    ensures Nth(anchor, step, i) + step <= Nth(anchor, step, j)
    decreases j
  {
    if i + 1 < j {
      NthIncreases(anchor, step, i, j - 1);
    }
  }

  lemma NthOrdered(anchor: int, step: Step, i: nat, j: nat)
    ensures i < j <==> Nth(anchor, step, i) < Nth(anchor, step, j)
    ensures i == j <==> Nth(anchor, step, i) == Nth(anchor, step, j)
  {
    if i < j {
      NthIncreases(anchor, step, i, j);
    } else if j < i {
      NthIncreases(anchor, step, j, i);
    }
  }

  /** A whole number of steps after the anchor, within the bound. */
  predicate OnGrid(anchor: int, rule: Rule, t: int) {
    anchor <= t && (t - anchor) % rule.step == 0 && LiveAt(rule, (t - anchor) / rule.step, t)
  }

  /** The enumerated slots are an arithmetic progression cut off by the bound. */
  lemma IsSlotClosedForm(anchor: int, rule: Rule, t: int)
    ensures IsSlot(anchor, rule, t) <==> OnGrid(anchor, rule, t)
  {
    if IsSlot(anchor, rule, t) {
      var i: nat :| Nth(anchor, rule.step, i) == t && Live(anchor, rule, i);
      NthIsAffine(anchor, rule.step, i);
      MultipleDivides(i, rule.step);
    }
    if anchor <= t && (t - anchor) % rule.step == 0 {
      var i: nat := (t - anchor) / rule.step;
      NthIsAffine(anchor, rule.step, i);
      assert Nth(anchor, rule.step, i) == t;
    }
  }

  lemma MultipleDivides(i: nat, step: Step)
    ensures 0 <= i * step && i * step / step == i && i * step % step == 0
  {
  }

  // ----- Counting -----

  /** How many slots of the unbounded grid are at or before `t`. */
  function GridThrough(anchor: int, step: Step, t: int): nat
    decreases if anchor <= t then t - anchor + 1 else 0
  {
    if t < anchor then 0 else 1 + GridThrough(anchor + step, step, t)
  }

  /** How many slots of the rule are at or before `t`. */
  function SlotsThrough(anchor: int, rule: Rule, t: int): nat {
    var all := GridThrough(anchor, rule.step, t);
    match rule.bound
    case Forever => all
    case Count(n) => if all < n then all else n
    case Until(last) => if t <= last then all else GridThrough(anchor, rule.step, last)
  }

  lemma {:induction false} GridThroughCounts(anchor: int, step: Step, t: int, i: nat)
    ensures i < GridThrough(anchor, step, t) <==> Nth(anchor, step, i) <= t
    decreases i
  {
    if i == 0 {
      return;
    }
    NthContinues(anchor, step, 1, i - 1);
    if t < anchor {
      NthIncreases(anchor, step, 0, i);
    } else {
      GridThroughCounts(anchor + step, step, t, i - 1);
    }
  }

  lemma GridThroughClosedForm(anchor: int, step: Step, t: int)
    ensures GridThrough(anchor, step, t) == if t < anchor then 0 else (t - anchor) / step + 1
  {
    if anchor <= t {
      var q: nat := (t - anchor) / step;
      NthIsAffine(anchor, step, q);
      NthIsAffine(anchor, step, q + 1);
      GridThroughCounts(anchor, step, t, q);
      GridThroughCounts(anchor, step, t, q + 1);
    }
  }

  lemma SlotsThroughCounts(anchor: int, rule: Rule, t: int, i: nat)
    ensures i < SlotsThrough(anchor, rule, t) <==> Live(anchor, rule, i) && Nth(anchor, rule.step, i) <= t
  {
    GridThroughCounts(anchor, rule.step, t, i);
    if rule.bound.Until? {
      GridThroughCounts(anchor, rule.step, rule.bound.last, i);
    }
  }

  /** A slot list has no gaps: whatever precedes a live slot is live. */
  lemma LiveIsPrefix(anchor: int, rule: Rule, i: nat, j: nat)
    requires i <= j && Live(anchor, rule, j)
    ensures Live(anchor, rule, i)
  {
    NthOrdered(anchor, rule.step, i, j);
  }

  /** `rrule.between(base, pivot, inc=True)`, counted: the generator is run until it stops or
      passes the pivot. */
  method CountThrough(anchor: int, rule: Rule, pivot: int) returns (c: nat)
    ensures c == SlotsThrough(anchor, rule, pivot)
    ensures forall i: nat :: i < c <==> Live(anchor, rule, i) && Nth(anchor, rule.step, i) <= pivot
  {
    var t := anchor;
    c := 0;
    while LiveAt(rule, c, t) && t <= pivot
      invariant t == Nth(anchor, rule.step, c)
      invariant forall i: nat :: i < c ==> Live(anchor, rule, i) && Nth(anchor, rule.step, i) <= pivot
      decreases pivot - t
    {
      t := t + rule.step;
      c := c + 1;
    }
    forall i: nat ensures i < c <==> Live(anchor, rule, i) && Nth(anchor, rule.step, i) <= pivot {
      if c <= i && Live(anchor, rule, i) && Nth(anchor, rule.step, i) <= pivot {
        LiveIsPrefix(anchor, rule, c, i);
        NthOrdered(anchor, rule.step, c, i);
      }
    }
    SlotsThroughCounts(anchor, rule, pivot, c);
    if 0 < c {
      SlotsThroughCounts(anchor, rule, pivot, c - 1);
    }
  }

  datatype Last = NoSlot | At(t: int)

  /** The last slot strictly before `pivot`, if the rule has one. */
  function LastBefore(anchor: int, rule: Rule, pivot: int): (last: Last) {
    var k := SlotsThrough(anchor, rule, pivot - 1);
    if k == 0 then NoSlot else At(Nth(anchor, rule.step, k - 1))
  }

  /** `rrule.before(pivot, inc=False)`: remember the previous slot until one reaches the pivot. */
  method SlotBefore(anchor: int, rule: Rule, pivot: int) returns (last: Last)
    ensures last == LastBefore(anchor, rule, pivot)
    ensures last.At? ==> last.t < pivot && IsSlot(anchor, rule, last.t)
    ensures forall t | IsSlot(anchor, rule, t) && t < pivot :: last.At? && t <= last.t
  {
    var t, i := anchor, 0;
    last := NoSlot;
    while LiveAt(rule, i, t) && t < pivot
      invariant t == Nth(anchor, rule.step, i)
      invariant last == if i == 0 then NoSlot else At(Nth(anchor, rule.step, i - 1))
      invariant 0 < i ==> Live(anchor, rule, i - 1) && last.t < pivot
      decreases pivot - t
    {
      last := At(t);
      t := t + rule.step;
      i := i + 1;
    }
    SlotsThroughCounts(anchor, rule, pivot - 1, i);
    if 0 < i {
      SlotsThroughCounts(anchor, rule, pivot - 1, i - 1);
    }
    forall t | IsSlot(anchor, rule, t) && t < pivot ensures last.At? && t <= last.t {
      var j: nat :| Nth(anchor, rule.step, j) == t && Live(anchor, rule, j);
      SlotsThroughCounts(anchor, rule, pivot - 1, j);
      NthOrdered(anchor, rule.step, i - 1, j);
    }
  }

  // ----- Capping a rule before a pivot -----

  /** The rule after `_truncate_until`: COUNT is dropped and UNTIL becomes the last slot before
      the pivot, or just before the pivot itself when there is none. */
  function Truncated(anchor: int, rule: Rule, pivot: int, allDay: bool): Rule {
    var until := match LastBefore(anchor, rule, pivot)
      case At(t) => t
      case NoSlot => pivot - (if allDay then DAY else 1);
    rule.(bound := Until(until))
  }

  /** Capping keeps exactly the slots before the pivot. */
  lemma TruncateKeepsEarlierSlots(anchor: int, rule: Rule, pivot: int, allDay: bool, i: nat)
    requires pivot <= anchor || Live(anchor, rule, 0)
    ensures Live(anchor, Truncated(anchor, rule, pivot, allDay), i)
        <==> Live(anchor, rule, i) && Nth(anchor, rule.step, i) < pivot
  {
    var k := SlotsThrough(anchor, rule, pivot - 1);
    SlotsThroughCounts(anchor, rule, pivot - 1, i);
    SlotsThroughCounts(anchor, rule, pivot - 1, 0);
    NthOrdered(anchor, rule.step, 0, i);
    if 0 < k {
      NthOrdered(anchor, rule.step, i, k - 1);
    }
  }

  /** A cap ends before the pivot, and that of an all-day rule of whole days, capped at a whole day, on a day of
      its own: it can be written as a date. */
  lemma CapIsBeforePivot(anchor: int, rule: Rule, pivot: int, allDay: bool)
    ensures var cut := Truncated(anchor, rule, pivot, allDay);
      && cut.step == rule.step && cut.bound.Until? && cut.bound.last < pivot
      && (allDay && rule.step % DAY == 0 && (pivot - anchor) % DAY == 0 ==> (cut.bound.last - anchor) % DAY == 0)
  {
    var k := SlotsThrough(anchor, rule, pivot - 1);
    if 0 < k {
      SlotsThroughCounts(anchor, rule, pivot - 1, k - 1);
      if rule.step % DAY == 0 {
        WholeDays(anchor, rule.step, k - 1);
      }
    }
  }

  lemma {:induction false} WholeDays(anchor: int, step: Step, i: nat)
    requires step % DAY == 0
    ensures (Nth(anchor, step, i) - anchor) % DAY == 0
  {
    if i != 0 {
      WholeDays(anchor, step, i - 1);
      var before := Nth(anchor, step, i - 1) - anchor;
      assert before == DAY * (before / DAY) && step == DAY * (step / DAY);
      assert before + step == DAY * (before / DAY + step / DAY);
    }
  }

  /** The guard of the fallback branch is exact: the cap is right iff the rule has a slot at all or
      the pivot does not come after the anchor. All-day pivots are whole days from their anchor. */
  lemma TruncateIsExactIff(anchor: int, rule: Rule, pivot: int, allDay: bool)
    requires allDay ==> (pivot - anchor) % DAY == 0
    ensures var cut := Truncated(anchor, rule, pivot, allDay);
      (forall t :: IsSlot(anchor, cut, t) <==> IsSlot(anchor, rule, t) && t < pivot)
        <==> (pivot <= anchor || Live(anchor, rule, 0))
  {
    var cut := Truncated(anchor, rule, pivot, allDay);
    if pivot <= anchor || Live(anchor, rule, 0) {
      forall t ensures IsSlot(anchor, cut, t) <==> IsSlot(anchor, rule, t) && t < pivot {
        TruncateSlots(anchor, rule, pivot, allDay, t);
      }
    } else {
      SlotsThroughCounts(anchor, rule, pivot - 1, 0);
      assert Nth(anchor, cut.step, 0) == anchor && Live(anchor, cut, 0);
      assert IsSlot(anchor, cut, anchor);
      assert !IsSlot(anchor, rule, anchor) by {
        NoSlotsWithoutFirst(anchor, rule, anchor);
      }
    }
  }

  lemma NoSlotsWithoutFirst(anchor: int, rule: Rule, t: int)
    requires !Live(anchor, rule, 0)
    ensures !IsSlot(anchor, rule, t)
  {
    if IsSlot(anchor, rule, t) {
      var i: nat :| Nth(anchor, rule.step, i) == t && Live(anchor, rule, i);
      LiveIsPrefix(anchor, rule, 0, i);
    }
  }

  lemma TruncateSlots(anchor: int, rule: Rule, pivot: int, allDay: bool, t: int)
    requires pivot <= anchor || Live(anchor, rule, 0)
    ensures IsSlot(anchor, Truncated(anchor, rule, pivot, allDay), t) <==> IsSlot(anchor, rule, t) && t < pivot
  {
    var cut := Truncated(anchor, rule, pivot, allDay);
    if IsSlot(anchor, cut, t) {
      var i: nat :| Nth(anchor, cut.step, i) == t && Live(anchor, cut, i);
      TruncateKeepsEarlierSlots(anchor, rule, pivot, allDay, i);
      assert Nth(anchor, rule.step, i) == t;
    }
    if IsSlot(anchor, rule, t) && t < pivot {
      var i: nat :| Nth(anchor, rule.step, i) == t && Live(anchor, rule, i);
      TruncateKeepsEarlierSlots(anchor, rule, pivot, allDay, i);
      assert Nth(anchor, cut.step, i) == t;
    }
  }

  /** A rule bounded before its own anchor has no slots, and capping it brings one back. */
  lemma TruncateCanReadmit()
    ensures exists rule: Rule, pivot ::
      !IsSlot(0, rule, 0) && IsSlot(0, Truncated(0, rule, pivot, false), 0)
  {
    var rule := Rule(DAY, Until(-1));
    NoSlotsWithoutFirst(0, rule, 0);
    SlotsThroughCounts(0, rule, DAY - 1, 0);
    var cut := Truncated(0, rule, DAY, false);
    assert Nth(0, cut.step, 0) == 0 && Live(0, cut, 0);
  }

  // ----- The editor's date-granular UNTIL -----

  /** What an UNTIL becomes when the editor reads its date and writes back 23:59:59 of it. */
  function DayEnd(u: int): int {
    u - u % DAY + (DAY - 1)
  }

  function EditorRoundTrip(rule: Rule): Rule {
    if rule.bound.Until? then rule.(bound := Until(DayEnd(rule.bound.last))) else rule
  }

  /** A capped series goes through the editor without gaining a slot, exactly when the first slot
      it dropped is not on the UTC day of the last slot it kept. */
  lemma EditorReadmitsIff(anchor: int, rule: Rule, k: nat, allDay: bool)
    requires 0 < k && Live(anchor, rule, k)
    ensures var pivot := Nth(anchor, rule.step, k);
      var cut := Truncated(anchor, rule, pivot, allDay);
      (forall t :: IsSlot(anchor, EditorRoundTrip(cut), t) <==> IsSlot(anchor, cut, t))
        <==> Nth(anchor, rule.step, k - 1) / DAY != pivot / DAY
  {
    var pivot := Nth(anchor, rule.step, k);
    var cut := Truncated(anchor, rule, pivot, allDay);
    var last := Nth(anchor, rule.step, k - 1);
    var back := EditorRoundTrip(cut);
    CutIsPrevious(anchor, rule, k, allDay);
    assert cut.bound == Until(last) && back.bound == Until(DayEnd(last));
    if last / DAY != pivot / DAY {
      forall t ensures IsSlot(anchor, back, t) <==> IsSlot(anchor, cut, t) {
        if IsSlot(anchor, back, t) {
          var i: nat :| Nth(anchor, back.step, i) == t && Live(anchor, back, i);
          NthOrdered(anchor, rule.step, i, k);
          NthOrdered(anchor, rule.step, i, k - 1);
          assert Nth(anchor, cut.step, i) == t && Live(anchor, cut, i);
        }
        if IsSlot(anchor, cut, t) {
          var i: nat :| Nth(anchor, cut.step, i) == t && Live(anchor, cut, i);
          assert Nth(anchor, back.step, i) == t && Live(anchor, back, i);
        }
      }
    } else {
      assert Nth(anchor, back.step, k) == pivot && Live(anchor, back, k);
      assert IsSlot(anchor, back, pivot);
      assert !IsSlot(anchor, cut, pivot);
    }
  }

  lemma CutIsPrevious(anchor: int, rule: Rule, k: nat, allDay: bool)
    requires 0 < k && Live(anchor, rule, k)
    ensures Truncated(anchor, rule, Nth(anchor, rule.step, k), allDay).bound == Until(Nth(anchor, rule.step, k - 1))
  {
    var pivot := Nth(anchor, rule.step, k);
    LiveIsPrefix(anchor, rule, k - 1, k);
    SlotsThroughCounts(anchor, rule, pivot - 1, k - 1);
    SlotsThroughCounts(anchor, rule, pivot - 1, k);
  }

  /** With a step of at least a day the editor never readmits the pivot. */
  lemma EditorKeepsDailyCap(anchor: int, rule: Rule, k: nat, allDay: bool, t: int)
    requires 0 < k && Live(anchor, rule, k) && DAY <= rule.step
    ensures var cut := Truncated(anchor, rule, Nth(anchor, rule.step, k), allDay);
      IsSlot(anchor, EditorRoundTrip(cut), t) <==> IsSlot(anchor, rule, t) && t < Nth(anchor, rule.step, k)
  {
    var pivot := Nth(anchor, rule.step, k);
    LiveIsPrefix(anchor, rule, 0, k);
    TruncateSlots(anchor, rule, pivot, allDay, t);
    assert Nth(anchor, rule.step, k - 1) / DAY < pivot / DAY;
    EditorReadmitsIff(anchor, rule, k, allDay);
  }

  /** An hourly series does lose its cap: dropping 02:00 and later comes back after the editor. */
  lemma EditorReadmitsHourly()
    ensures var rule := Rule(3600, Forever);
      IsSlot(0, EditorRoundTrip(Truncated(0, rule, 7200, false)), 7200)
  {
    var rule := Rule(3600, Forever);
    assert Nth(0, rule.step, 2) == Nth(0, rule.step, 1) + 3600 == Nth(0, rule.step, 0) + 7200 == 7200;
    CutIsPrevious(0, rule, 2, false);
    var back := EditorRoundTrip(Truncated(0, rule, 7200, false));
    assert Nth(0, back.step, 2) == 7200 && Live(0, back, 2);
  }

  // ----- Moving and continuing a rule -----

  /** `_shift_until`: an UNTIL bound moves with the series, the other bounds do not depend on it. */
  function ShiftedRule(rule: Rule, d: int): Rule {
    if rule.bound.Until? then rule.(bound := Until(rule.bound.last + d)) else rule
  }

  lemma ShiftedSlots(anchor: int, rule: Rule, d: int, i: nat)
    ensures Nth(anchor + d, ShiftedRule(rule, d).step, i) == Nth(anchor, rule.step, i) + d
    ensures Live(anchor + d, ShiftedRule(rule, d), i) <==> Live(anchor, rule, i)
  {
    NthShifts(anchor, rule.step, i, d);
  }

  lemma ShiftMovesEverySlot(anchor: int, rule: Rule, d: int, t: int)
    ensures IsSlot(anchor + d, ShiftedRule(rule, d), t + d) <==> IsSlot(anchor, rule, t)
  {
    var moved := ShiftedRule(rule, d);
    if IsSlot(anchor, rule, t) {
      var i: nat :| Nth(anchor, rule.step, i) == t && Live(anchor, rule, i);
      ShiftedSlots(anchor, rule, d, i);
      assert Nth(anchor + d, moved.step, i) == t + d && Live(anchor + d, moved, i);
    }
    if IsSlot(anchor + d, moved, t + d) {
      var i: nat :| Nth(anchor + d, moved.step, i) == t + d && Live(anchor + d, moved, i);
      ShiftedSlots(anchor, rule, d, i);
      assert Nth(anchor, rule.step, i) == t && Live(anchor, rule, i);
    }
  }

  /** `_remaining_rule_parts`: COUNT is reduced by the slots through the pivot less one, but stays
      at least 1; UNTIL and unbounded rules carry over. */
  function RemainingRule(anchor: int, rule: Rule, pivot: int): Rule {
    match rule.bound
    case Count(n) =>
      var left := n - (SlotsThrough(anchor, rule, pivot) - 1);
      rule.(bound := Count(if left < 1 then 1 else left))
    case _ => rule
  }

  /** What is left of a COUNT never drops below one; above that it is what the slots before the pivot leave. The
      other bounds are not touched. */
  lemma RemainderIsPositive(anchor: int, rule: Rule, pivot: int)
    ensures var left := RemainingRule(anchor, rule, pivot);
      && left.step == rule.step
      && (!rule.bound.Count? ==> left == rule)
      && (rule.bound.Count? ==> left.bound.Count? && 1 <= left.bound.n)
      && (rule.bound.Count? && SlotsThrough(anchor, rule, pivot) <= rule.bound.n ==>
            left.bound.n == rule.bound.n + 1 - SlotsThrough(anchor, rule, pivot))
  {
  }

  /** At or before the first slot nothing is to be taken off: the count stays iff the pivot is that slot, and
      otherwise gains one. */
  lemma RemainderAtFirstKeepsIff(anchor: int, step: Step, n: nat, pivot: int)
    requires 0 < n && pivot <= anchor
    ensures var left := RemainingRule(anchor, Rule(step, Count(n)), pivot).bound;
      (left == Count(n) <==> pivot == anchor) && (pivot < anchor ==> left == Count(n + 1))
  {
    if pivot == anchor {
      SlotsThroughAt(anchor, Rule(step, Count(n)), 0);
      assert Nth(anchor, step, 0) == anchor;
    }
  }

  /** The rule of the series split off at `pivot` and started `d` later. */
  function ContinuedRule(anchor: int, rule: Rule, pivot: int, d: int): Rule {
    ShiftedRule(RemainingRule(anchor, rule, pivot), d)
  }

  /** Continuing at slot `k` and moving by `d` yields slot `k + j` moved by `d` as its j-th. */
  lemma ContinuedSlots(anchor: int, rule: Rule, k: nat, d: int, j: nat)
    requires Live(anchor, rule, k)
    ensures var pivot := Nth(anchor, rule.step, k);
      var tail := ContinuedRule(anchor, rule, pivot, d);
      && Nth(pivot + d, tail.step, j) == Nth(anchor, rule.step, k + j) + d
      && (Live(pivot + d, tail, j) <==> Live(anchor, rule, k + j))
  {
    var pivot := Nth(anchor, rule.step, k);
    SlotsThroughAt(anchor, rule, k);
    NthShifts(pivot, rule.step, j, d);
    NthContinues(anchor, rule.step, k, j);
  }

  lemma SlotsThroughAt(anchor: int, rule: Rule, k: nat)
    requires Live(anchor, rule, k)
    ensures SlotsThrough(anchor, rule, Nth(anchor, rule.step, k)) == k + 1
  {
    var pivot := Nth(anchor, rule.step, k);
    SlotsThroughCounts(anchor, rule, pivot, k);
    SlotsThroughCounts(anchor, rule, pivot, k + 1);
  }

  lemma ContinuationMovesLaterSlots(anchor: int, rule: Rule, pivot: int, d: int, t: int)
    requires IsSlot(anchor, rule, pivot)
    ensures IsSlot(pivot + d, ContinuedRule(anchor, rule, pivot, d), t + d) <==> IsSlot(anchor, rule, t) && pivot <= t
  {
    var k: nat :| Nth(anchor, rule.step, k) == pivot && Live(anchor, rule, k);
    var tail := ContinuedRule(anchor, rule, pivot, d);
    if IsSlot(pivot + d, tail, t + d) {
      var j: nat :| Nth(pivot + d, tail.step, j) == t + d && Live(pivot + d, tail, j);
      ContinuedSlots(anchor, rule, k, d, j);
      NthOrdered(anchor, rule.step, k, k + j);
      assert Nth(anchor, rule.step, k + j) == t && Live(anchor, rule, k + j);
    }
    if IsSlot(anchor, rule, t) && pivot <= t {
      var i: nat :| Nth(anchor, rule.step, i) == t && Live(anchor, rule, i);
      NthOrdered(anchor, rule.step, i, k);
      ContinuedSlots(anchor, rule, k, d, i - k);
      assert Nth(pivot + d, tail.step, i - k) == t + d && Live(pivot + d, tail, i - k);
    }
  }

  /** Splitting an n-COUNT rule keeps n slots in total iff the split point is one of its slots. */
  lemma SplitKeepsCountIff(anchor: int, step: Step, n: nat, pivot: int, allDay: bool)
    requires anchor < pivot
    ensures var rule := Rule(step, Count(n));
      var kept := Truncated(anchor, rule, pivot, allDay);
      var tail := RemainingRule(anchor, rule, pivot);
      GridThrough(anchor, step, kept.bound.last) + tail.bound.n == n <==> IsSlot(anchor, rule, pivot)
  {
    var rule := Rule(step, Count(n));
    if 0 < n {
      HeadCount(anchor, step, n, pivot, allDay);
      var before := SlotsThrough(anchor, rule, pivot - 1);
      var through := SlotsThrough(anchor, rule, pivot);
      PivotCounts(anchor, rule, pivot);
      assert through <= n;
    }
  }

  /** The head of a capped n-COUNT rule has as many slots as lie before the pivot. */
  lemma HeadCount(anchor: int, step: Step, n: nat, pivot: int, allDay: bool)
    requires anchor < pivot && 0 < n
    ensures var rule := Rule(step, Count(n));
      && 0 < SlotsThrough(anchor, rule, pivot - 1)
      && GridThrough(anchor, step, Truncated(anchor, rule, pivot, allDay).bound.last)
         == SlotsThrough(anchor, rule, pivot - 1)
  {
    var rule := Rule(step, Count(n));
    var before := SlotsThrough(anchor, rule, pivot - 1);
    SlotsThroughCounts(anchor, rule, pivot - 1, 0);
    var last := Nth(anchor, step, before - 1);
    GridThroughCounts(anchor, step, last, before);
    GridThroughCounts(anchor, step, last, before - 1);
    NthOrdered(anchor, step, before - 1, before);
  }

  /** One more slot is at or before the pivot than strictly before it, iff the pivot is a slot. */
  lemma PivotCounts(anchor: int, rule: Rule, pivot: int)
    ensures var before, through := SlotsThrough(anchor, rule, pivot - 1), SlotsThrough(anchor, rule, pivot);
      through == if IsSlot(anchor, rule, pivot) then before + 1 else before
  {
    var before, through := SlotsThrough(anchor, rule, pivot - 1), SlotsThrough(anchor, rule, pivot);
    if IsSlot(anchor, rule, pivot) {
      var k: nat :| Nth(anchor, rule.step, k) == pivot && Live(anchor, rule, k);
      SlotsThroughAt(anchor, rule, k);
      SlotsThroughCounts(anchor, rule, pivot - 1, k);
      if 0 < k {
        SlotsThroughCounts(anchor, rule, pivot - 1, k - 1);
        NthOrdered(anchor, rule.step, k - 1, k);
        LiveIsPrefix(anchor, rule, k - 1, k);
      }
    } else {
      SlotsThroughCounts(anchor, rule, pivot, before);
      SlotsThroughCounts(anchor, rule, pivot - 1, before);
      if 0 < before {
        SlotsThroughCounts(anchor, rule, pivot, before - 1);
        SlotsThroughCounts(anchor, rule, pivot - 1, before - 1);
      }
    }
  }
}
