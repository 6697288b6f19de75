/** Fetching expanded events and tasks: plain occurrences that an override covers are suppressed. */
module Fetch {
  import opened Lists
  import opened Recurrence
  import opened CalendarObject
  import opened Expansion

  /** A component of an expanded response: an override, with its RECURRENCE-ID, or a plain occurrence. */
  datatype Component = Component(rid: Option<int>, body: Body)

  datatype Response = Response(url: string, components: seq<Component>)

  /** A component together with the uid it goes by: its own, or the resource's URL. */
  datatype Entry = Entry(uid: string, component: Component)

  type Key = (string, int)

  function EntryOf(url: string, c: Component): Entry {
    Entry(if c.body.uid == "" then url else c.body.uid, c)
  }

  function Entries(url: string, cs: seq<Component>): (es: seq<Entry>)
    ensures |es| == |cs| && forall i | 0 <= i < |cs| :: es[i] == EntryOf(url, cs[i])
  {
    seq(|cs|, i requires 0 <= i < |cs| => EntryOf(url, cs[i]))
  }

  function AllEntries(rs: seq<Response>): seq<Entry> {
    if rs == [] then [] else AllEntries(rs[..|rs| - 1]) + Entries(rs[|rs| - 1].url, rs[|rs| - 1].components)
  }

  predicate IsOverride(e: Entry) {
    e.component.rid.Some?
  }

  function OverrideKeys(es: seq<Entry>): set<Key> {
    set e | e in es && IsOverride(e) :: (e.uid, e.component.rid.value)
  }

  /** The time under which a plain occurrence is looked up among the overrides: the start of an event, the
      due date of a task that has one. */
  function LookupTime(kind: Kind, e: Entry): Option<int> {
    var b := e.component.body;
    if kind.Todo? && b.end.Some? then b.end else b.start
  }

  predicate IsSuppressed(kind: Kind, e: Entry, overridden: set<Key>) {
    !IsOverride(e) && LookupTime(kind, e).Some? && (e.uid, LookupTime(kind, e).value) in overridden
  }

  /** Entries that are kept, given the keys the overrides of the response cover; undated ones are not. */
  predicate IsKept(kind: Kind, e: Entry, overridden: set<Key>) {
    LookupTime(kind, e).Some? && !IsSuppressed(kind, e, overridden)
  }

  function Kept(kind: Kind, es: seq<Entry>, overridden: set<Key>): seq<Entry> {
    if es == [] then []
    else
      var front := Kept(kind, es[..|es| - 1], overridden);
      if IsKept(kind, es[|es| - 1], overridden) then front + [es[|es| - 1]] else front
  }

  function Result(kind: Kind, es: seq<Entry>): seq<Entry> {
    Kept(kind, es, OverrideKeys(es))
  }

  lemma OverrideKeysExtend(es: seq<Entry>, e: Entry)
    ensures OverrideKeys(es + [e]) == OverrideKeys(es) + if IsOverride(e) then {(e.uid, e.component.rid.value)} else {}
  {
  }

  /** The first pass: what do the overrides of the response cover? */
  method ScanOverrides(rs: seq<Response>) returns (overridden: set<Key>)
    ensures overridden == OverrideKeys(AllEntries(rs))
  {
    overridden := {};
    for i := 0 to |rs|
      invariant overridden == OverrideKeys(AllEntries(rs[..i]))
    {
      var cs := rs[i].components;
      ghost var before, added := AllEntries(rs[..i]), Entries(rs[i].url, cs);
      assert before + added[..0] == before;
      for j := 0 to |cs|
        invariant overridden == OverrideKeys(before + added[..j])
      {
        var entry := EntryOf(rs[i].url, cs[j]);
        OverrideKeysExtend(before + added[..j], entry);
        assert before + added[..j + 1] == before + added[..j] + [entry];
        if cs[j].rid.Some? {
          overridden := overridden + {(entry.uid, cs[j].rid.value)};
        }
      }
      assert added[..|cs|] == added && rs[..i + 1][..i] == rs[..i];
    }
    assert rs[..|rs|] == rs;
  }

  lemma KeptExtends(kind: Kind, es: seq<Entry>, e: Entry, overridden: set<Key>)
    ensures Kept(kind, es + [e], overridden)
         == Kept(kind, es, overridden) + if IsKept(kind, e, overridden) then [e] else []
  {
    assert (es + [e])[..|es|] == es;
  }

  lemma {:induction false} KeptOfConcat(kind: Kind, a: seq<Entry>, b: seq<Entry>, overridden: set<Key>)
    ensures Kept(kind, a + b, overridden) == Kept(kind, a, overridden) + Kept(kind, b, overridden)
  {
    if b == [] {
      assert a + b == a;
    } else {
      var front, last := b[..|b| - 1], b[|b| - 1];
      var more := if IsKept(kind, last, overridden) then [last] else [];
      KeptOfConcat(kind, a, front, overridden);
      assert a + b == a + front + [last];
      KeptExtends(kind, a + front, last, overridden);
      ConcatAssociates(Kept(kind, a, overridden), Kept(kind, front, overridden), more);
    }
  }

  method KeepShown(kind: Kind, r: Response, overridden: set<Key>) returns (kept: seq<Entry>)
    ensures kept == Kept(kind, Entries(r.url, r.components), overridden)
  {
    kept := [];
    ghost var all := Entries(r.url, r.components);
    for j := 0 to |r.components|
      invariant kept == Kept(kind, all[..j], overridden)
    {
      var entry := EntryOf(r.url, r.components[j]);
      KeptExtends(kind, all[..j], entry, overridden);
      assert all[..j + 1] == all[..j] + [entry];
      var c := r.components[j];
      var time := if kind.Todo? && c.body.end.Some? then c.body.end else c.body.start;
      if time.Some? && (c.rid.Some? || (entry.uid, time.value) !in overridden) {
        kept := kept + [entry];
      }
    }
    assert all[..|all|] == all;
  }

  /** `_events_from_cal`, and the dated part of `_tasks_from_cal`: the second pass keeps what no override
      covers. */
  method FromCalendar(kind: Kind, rs: seq<Response>) returns (result: seq<Entry>)
    ensures result == Result(kind, AllEntries(rs))
  {
    var overridden := ScanOverrides(rs);
    result := [];
    for i := 0 to |rs|
      invariant result == Kept(kind, AllEntries(rs[..i]), overridden)
    {
      var kept := KeepShown(kind, rs[i], overridden);
      KeptOfConcat(kind, AllEntries(rs[..i]), Entries(rs[i].url, rs[i].components), overridden);
      assert rs[..i + 1][..i] == rs[..i];
      result := result + kept;
    }
    assert rs[..|rs|] == rs;
  }

  lemma {:induction false} KeptKeepsMultiplicity(kind: Kind, es: seq<Entry>, overridden: set<Key>, e: Entry)
    ensures multiset(Kept(kind, es, overridden))[e] == if IsKept(kind, e, overridden) then multiset(es)[e] else 0
  {
    if es != [] {
      KeptKeepsMultiplicity(kind, es[..|es| - 1], overridden, e);
      assert es == es[..|es| - 1] + [es[|es| - 1]];
    }
  }

  /** An entry is kept iff it is dated, by its start or as a task by its due date, and it is an override or no
      override of its uid has the RECURRENCE-ID it is looked up under. */
  lemma KeptIff(kind: Kind, es: seq<Entry>, e: Entry)
    requires e in es
    ensures var b := e.component.body;
      var time := if kind.Todo? && b.end.Some? then b.end else b.start;
      e in Result(kind, es) <==>
        time.Some? && (IsOverride(e) || forall o | o in es && o.uid == e.uid :: o.component.rid != time)
  {
    KeptKeepsMultiplicity(kind, es, OverrideKeys(es), e);
    assert e in Result(kind, es) <==> e in multiset(Result(kind, es));
    assert e in multiset(es);
    if IsSuppressed(kind, e, OverrideKeys(es)) {
      var o :| o in es && IsOverride(o) && (o.uid, o.component.rid.value) == (e.uid, LookupTime(kind, e).value);
    }
    forall o | o in es && IsOverride(o) ensures (o.uid, o.component.rid.value) in OverrideKeys(es) {
    }
  }

  // ----- Servers that send covered copies -----

  /** A response may come in any order, and with any number of plain copies that its overrides cover:
      the same entries are kept. */
  lemma ExpansionStyleIsIrrelevant(kind: Kind, es: seq<Entry>, copies: seq<Entry>, other: seq<Entry>)
    requires multiset(other) == multiset(es) + multiset(copies)
    requires forall c | c in copies :: IsSuppressed(kind, c, OverrideKeys(es))
    ensures multiset(Result(kind, other)) == multiset(Result(kind, es))
  {
    forall e ensures e in other <==> e in es || e in copies {
      assert e in other <==> e in multiset(other);
      assert e in es <==> e in multiset(es);
      assert e in copies <==> e in multiset(copies);
    }
    assert OverrideKeys(other) == OverrideKeys(es);
    forall e ensures multiset(Result(kind, other))[e] == multiset(Result(kind, es))[e] {
      KeptKeepsMultiplicity(kind, other, OverrideKeys(es), e);
      KeptKeepsMultiplicity(kind, es, OverrideKeys(es), e);
      if e in multiset(copies) {
        assert e in copies;
      }
    }
  }

  // ----- One entry per slot -----

  /** The slot an entry stands for. */
  function KeyOf(e: Entry): (string, Option<int>) {
    (e.uid, if IsOverride(e) then e.component.rid else AnchorOf(e.component.body))
  }

  predicate IsCovered(e: Entry, overridden: set<Key>) {
    KeyOf(e).1.Some? && (e.uid, KeyOf(e).1.value) in overridden
  }

  /** What a server may send: dated entries, one override per key and one plain occurrence per key that no
      override covers. Plain copies at covered keys may come in any number and order. */
  ghost predicate IsExpansion(kind: Kind, es: seq<Entry>) {
    && (forall e | e in es :: LookupTime(kind, e).Some?)
    && (forall i, j | 0 <= i < j < |es| && KeyOf(es[i]) == KeyOf(es[j]) && IsOverride(es[i]) == IsOverride(es[j]) ::
          !IsOverride(es[i]) && IsCovered(es[i], OverrideKeys(es)))
  }

  ghost predicate DistinctKeys(es: seq<Entry>) {
    forall i, j :: 0 <= i < j < |es| ==> KeyOf(es[i]) != KeyOf(es[j])
  }

  ghost predicate IsRepresented(e: Entry, shown: seq<Entry>) {
    exists x :: x in shown && KeyOf(x) == KeyOf(e)
  }

  /** Each slot of the response comes out, and only once. */
  ghost predicate OncePerSlot(es: seq<Entry>, result: seq<Entry>) {
    DistinctKeys(result) && forall e | e in es :: IsRepresented(e, result)
  }

  /** Plain occurrences are suppressed where an override stands at their slot and only there. */
  ghost predicate SuppressesCovered(kind: Kind, es: seq<Entry>) {
    forall e | e in es && !IsOverride(e) :: IsSuppressed(kind, e, OverrideKeys(es)) <==> IsCovered(e, OverrideKeys(es))
  }

  lemma {:induction false} KeptIsFilter(kind: Kind, es: seq<Entry>, overridden: set<Key>, e: Entry)
    ensures e in Kept(kind, es, overridden) <==> e in es && IsKept(kind, e, overridden)
  {
    if es != [] {
      KeptIsFilter(kind, es[..|es| - 1], overridden, e);
      assert es == es[..|es| - 1] + [es[|es| - 1]];
    }
  }

  lemma OverrideCovers(es: seq<Entry>, e: Entry)
    requires e in es && IsOverride(e)
    ensures (e.uid, e.component.rid.value) in OverrideKeys(es)
  {
  }

  lemma {:induction false} KeptKeysAreDistinct(kind: Kind, es: seq<Entry>, n: nat)
    requires IsExpansion(kind, es) && SuppressesCovered(kind, es) && n <= |es|
    ensures DistinctKeys(Kept(kind, es[..n], OverrideKeys(es)))
  {
    if n != 0 {
      var covered := OverrideKeys(es);
      KeptKeysAreDistinct(kind, es, n - 1);
      assert es[..n][..n - 1] == es[..n - 1];
      var front := Kept(kind, es[..n - 1], covered);
      if IsKept(kind, es[n - 1], covered) {
        forall i | 0 <= i < |front| ensures KeyOf(front[i]) != KeyOf(es[n - 1]) {
          assert front[i] in front;
          KeptIsFilter(kind, es[..n - 1], covered, front[i]);
          var k :| 0 <= k < n - 1 && es[k] == front[i];
          KeptPairDiffers(kind, es, k, n - 1);
        }
        assert Kept(kind, es[..n], covered) == front + [es[n - 1]];
      }
    }
  }

  lemma KeptPairDiffers(kind: Kind, es: seq<Entry>, i: nat, j: nat)
    requires IsExpansion(kind, es) && SuppressesCovered(kind, es) && i < j < |es|
    requires IsKept(kind, es[i], OverrideKeys(es)) && IsKept(kind, es[j], OverrideKeys(es))
    ensures KeyOf(es[i]) != KeyOf(es[j])
  {
    assert es[i] in es && es[j] in es;
    if IsOverride(es[i]) {
      OverrideCovers(es, es[i]);
    }
    if IsOverride(es[j]) {
      OverrideCovers(es, es[j]);
    }
  }

  /** A covered entry has an override at its key, which is kept. */
  lemma CoveredIsRepresented(kind: Kind, es: seq<Entry>, e: Entry) returns (ov: Entry)
    requires IsExpansion(kind, es) && e in es && !IsOverride(e) && IsCovered(e, OverrideKeys(es))
    ensures ov in Result(kind, es) && IsOverride(ov) && KeyOf(ov) == KeyOf(e)
  {
    ov :| ov in es && IsOverride(ov) && (ov.uid, ov.component.rid.value) == (e.uid, KeyOf(e).1.value);
    KeptIsFilter(kind, es, OverrideKeys(es), ov);
  }

  /** Whatever copies and order the server sends, each slot of the response comes out exactly once, as the
      override if there is one, iff exactly the covered plain occurrences are suppressed. */
  lemma OneEntryPerSlotIff(kind: Kind, es: seq<Entry>)
    requires IsExpansion(kind, es)
    ensures OncePerSlot(es, Result(kind, es)) <==> SuppressesCovered(kind, es)
    ensures forall e | e in Result(kind, es) :: e in es
    ensures forall e | e in es && IsOverride(e) :: e in Result(kind, es)
  {
    var result := Result(kind, es);
    forall e ensures e in result <==> e in es && IsKept(kind, e, OverrideKeys(es)) {
      KeptIsFilter(kind, es, OverrideKeys(es), e);
    }
    if SuppressesCovered(kind, es) {
      assert es[..|es|] == es;
      KeptKeysAreDistinct(kind, es, |es|);
      forall e | e in es ensures IsRepresented(e, result) {
        if e !in result {
          var ov := CoveredIsRepresented(kind, es, e);
        }
      }
    }
    if OncePerSlot(es, result) {
      forall e | e in es && !IsOverride(e)
        ensures IsSuppressed(kind, e, OverrideKeys(es)) <==> IsCovered(e, OverrideKeys(es))
      {
        OnceMeansSuppressed(kind, es, e);
      }
    }
  }

  lemma KeyFixesEntry(es: seq<Entry>, x: Entry, y: Entry)
    requires DistinctKeys(es) && x in es && y in es && KeyOf(x) == KeyOf(y)
    ensures x == y
  {
    var i :| 0 <= i < |es| && es[i] == x;
    var j :| 0 <= j < |es| && es[j] == y;
    assert !(i < j) && !(j < i);
  }

  lemma KeyFixesUncovered(kind: Kind, es: seq<Entry>, x: Entry, y: Entry)
    requires IsExpansion(kind, es) && x in es && y in es && KeyOf(x) == KeyOf(y)
    requires IsOverride(x) == IsOverride(y) && !IsCovered(y, OverrideKeys(es))
    ensures x == y
  {
    var i :| 0 <= i < |es| && es[i] == x;
    var j :| 0 <= j < |es| && es[j] == y;
    assert !(i < j) && !(j < i);
  }

  lemma OnceMeansSuppressed(kind: Kind, es: seq<Entry>, e: Entry)
    requires IsExpansion(kind, es) && OncePerSlot(es, Result(kind, es)) && e in es && !IsOverride(e)
    ensures IsSuppressed(kind, e, OverrideKeys(es)) <==> IsCovered(e, OverrideKeys(es))
  {
    var result := Result(kind, es);
    KeptIsFilter(kind, es, OverrideKeys(es), e);
    if IsCovered(e, OverrideKeys(es)) {
      var ov := CoveredIsRepresented(kind, es, e);
      if e in result {
        KeyFixesEntry(result, e, ov);
      }
    } else {
      assert IsRepresented(e, result);
      var x :| x in result && KeyOf(x) == KeyOf(e);
      KeptIsFilter(kind, es, OverrideKeys(es), x);
      if IsOverride(x) {
        OverrideCovers(es, x);
      }
      KeyFixesUncovered(kind, es, x, e);
    }
  }

  // ----- Responses for a series -----

  function UidOf(url: string, s: Series): string {
    if s.master.body.uid == "" then url else s.master.body.uid
  }

  /** The occurrence a server generates from the master for slot `t`. */
  function PlainEntry(url: string, s: Series, t: int): Entry {
    var b := s.master.body;
    var d := if AnchorOf(b).Some? then t - AnchorOf(b).value else 0;
    EntryOf(url, Component(None, b.(start := Plus(b.start, d), end := Plus(b.end, d))))
  }

  /** What there is to show at slot `t`: the override, or the plain occurrence. */
  function EntryAt(url: string, s: Series, t: int): Entry {
    match Find(s.overrides, t)
    case Some(o) => EntryOf(url, Component(Some(t), o.body))
    case None => PlainEntry(url, s, t)
  }

  function EntriesAt(url: string, s: Series, slots: set<int>): set<Entry> {
    set t | t in slots :: EntryAt(url, s, t)
  }

  /** Among entries of other resources, the response reports on these slots of the series: what is to be
      shown at each comes once, and plain copies of overridden slots may come as well. */
  ghost predicate Reports(es: seq<Entry>, url: string, s: Series, slots: set<int>) {
    && (forall t | t in slots :: Visible(s, t))
    && (forall t | t in slots :: multiset(es)[EntryAt(url, s, t)] == 1)
    && (forall e | e in es && e.uid == UidOf(url, s) :: IsOfSlot(e, url, s, slots))
  }

  ghost predicate IsOfSlot(e: Entry, url: string, s: Series, slots: set<int>) {
    exists t :: t in slots && (e == EntryAt(url, s, t) || e == PlainEntry(url, s, t))
  }

  /** The result holds exactly what is to be shown at these slots, each once. */
  ghost predicate ShowsExactly(result: seq<Entry>, url: string, s: Series, slots: set<int>) {
    forall e: Entry | e.uid == UidOf(url, s) :: multiset(result)[e] == if e in EntriesAt(url, s, slots) then 1 else 0
  }

  /** How far from its slot a plain occurrence is looked up. */
  function Gap(kind: Kind, s: Series): int {
    var b := s.master.body;
    if kind.Todo? && b.start.Some? && b.end.Some? then b.end.value - b.start.value else 0
  }

  /** Is slot `t` one the response has an override for? */
  predicate ReportedOverride(s: Series, slots: set<int>, t: int) {
    t in slots && Overridden(s, t)
  }

  /** The series can be served: it and its overrides carry the dates that its kind needs. */
  ghost predicate IsServable(kind: Kind, s: Series) {
    && WellFormed(s) && (kind.Event? ==> s.master.body.start.Some?)
    && forall o | o in s.overrides :: o.body.start.Some? || (kind.Todo? && o.body.end.Some?)
  }

  lemma EntriesFixSlots(url: string, s: Series, t: int, t': int)
    requires AnchorOf(s.master.body).Some?
    ensures EntryAt(url, s, t) == EntryAt(url, s, t') ==> t == t'
    ensures PlainEntry(url, s, t) == PlainEntry(url, s, t') ==> t == t'
    ensures PlainEntry(url, s, t) == EntryAt(url, s, t') ==> t == t' && !Overridden(s, t)
  {
  }

  lemma CoveredKeys(kind: Kind, es: seq<Entry>, url: string, s: Series, slots: set<int>, t: int)
    requires IsServable(kind, s) && Reports(es, url, s, slots)
    ensures (UidOf(url, s), t) in OverrideKeys(es) <==> ReportedOverride(s, slots, t)
  {
    if ReportedOverride(s, slots, t) {
      FindFinds(s.overrides, t);
      assert Fits(s, Find(s.overrides, t).value);
      assert EntryAt(url, s, t) in multiset(es);
    }
    if (UidOf(url, s), t) in OverrideKeys(es) {
      var e :| e in es && IsOverride(e) && (e.uid, e.component.rid.value) == (UidOf(url, s), t);
      assert IsOfSlot(e, url, s, slots);
    }
  }

  lemma PlainIsKeptIff(kind: Kind, es: seq<Entry>, url: string, s: Series, slots: set<int>, t: int)
    requires IsServable(kind, s) && Reports(es, url, s, slots)
    ensures IsKept(kind, PlainEntry(url, s, t), OverrideKeys(es)) <==> !ReportedOverride(s, slots, t + Gap(kind, s))
  {
    CoveredKeys(kind, es, url, s, slots, t + Gap(kind, s));
    PlainLookup(kind, url, s, t);
  }

  lemma PlainLookup(kind: Kind, url: string, s: Series, t: int)
    requires AnchorOf(s.master.body).Some? && (kind.Event? ==> s.master.body.start.Some?)
    ensures var e := PlainEntry(url, s, t);
      e.uid == UidOf(url, s) && !IsOverride(e) && LookupTime(kind, e) == Some(t + Gap(kind, s))
  {
  }

  lemma OverrideIsKept(kind: Kind, es: seq<Entry>, url: string, s: Series, t: int)
    requires IsServable(kind, s) && Overridden(s, t)
    ensures IsKept(kind, EntryAt(url, s, t), OverrideKeys(es))
  {
    FindFinds(s.overrides, t);
  }

  /** Are the plain occurrences of the response looked up as if at their own slots? */
  ghost predicate LooksUpOwnSlots(kind: Kind, es: seq<Entry>, url: string, s: Series, slots: set<int>) {
    forall t | t in slots && PlainEntry(url, s, t) in es ::
      ReportedOverride(s, slots, t + Gap(kind, s)) <==> ReportedOverride(s, slots, t)
  }

  /** Fetching shows exactly the occurrences of the series that the response reports on, overridden ones
      as overridden, whatever copies, order and other resources it has, iff no plain occurrence is looked
      up at a slot that fares differently from its own. */
  lemma FetchShowsSeriesIff(kind: Kind, es: seq<Entry>, url: string, s: Series, slots: set<int>)
    requires IsServable(kind, s) && Reports(es, url, s, slots)
    ensures ShowsExactly(Result(kind, es), url, s, slots) <==> LooksUpOwnSlots(kind, es, url, s, slots)
  {
    var result := Result(kind, es);
    if LooksUpOwnSlots(kind, es, url, s, slots) {
      forall e: Entry | e.uid == UidOf(url, s)
        ensures multiset(result)[e] == if e in EntriesAt(url, s, slots) then 1 else 0
      {
        EntryIsShownOnce(kind, es, url, s, slots, e);
      }
    }
    if ShowsExactly(result, url, s, slots) {
      forall t | t in slots && PlainEntry(url, s, t) in es
        ensures ReportedOverride(s, slots, t + Gap(kind, s)) <==> ReportedOverride(s, slots, t)
      {
        var e := PlainEntry(url, s, t);
        PlainIsKeptIff(kind, es, url, s, slots, t);
        KeptKeepsMultiplicity(kind, es, OverrideKeys(es), e);
        assert e in multiset(es);
        if Overridden(s, t) && e in EntriesAt(url, s, slots) {
          var t' :| t' in slots && EntryAt(url, s, t') == e;
          EntriesFixSlots(url, s, t, t');
        }
      }
    }
  }

  lemma SlotIsShownOnce(kind: Kind, es: seq<Entry>, url: string, s: Series, slots: set<int>, t: int)
    requires IsServable(kind, s) && Reports(es, url, s, slots) && LooksUpOwnSlots(kind, es, url, s, slots)
    requires t in slots
    ensures multiset(Result(kind, es))[EntryAt(url, s, t)] == 1
  {
    var e := EntryAt(url, s, t);
    KeptKeepsMultiplicity(kind, es, OverrideKeys(es), e);
    assert e in multiset(es);
    if Overridden(s, t) {
      OverrideIsKept(kind, es, url, s, t);
    } else {
      PlainIsKeptIff(kind, es, url, s, slots, t);
      assert PlainEntry(url, s, t) in es && !ReportedOverride(s, slots, t);
    }
  }

  lemma CopyIsDropped(kind: Kind, es: seq<Entry>, url: string, s: Series, slots: set<int>, t: int)
    requires IsServable(kind, s) && Reports(es, url, s, slots) && LooksUpOwnSlots(kind, es, url, s, slots)
    requires t in slots && Overridden(s, t)
    ensures multiset(Result(kind, es))[PlainEntry(url, s, t)] == 0
  {
    PlainIsKeptIff(kind, es, url, s, slots, t);
    KeptKeepsMultiplicity(kind, es, OverrideKeys(es), PlainEntry(url, s, t));
    if PlainEntry(url, s, t) in es {
      assert ReportedOverride(s, slots, t);
    }
  }

  lemma EntryIsShownOnce(kind: Kind, es: seq<Entry>, url: string, s: Series, slots: set<int>, e: Entry)
    requires IsServable(kind, s) && Reports(es, url, s, slots) && LooksUpOwnSlots(kind, es, url, s, slots)
    requires e.uid == UidOf(url, s)
    ensures multiset(Result(kind, es))[e] == if e in EntriesAt(url, s, slots) then 1 else 0
  {
    if e in EntriesAt(url, s, slots) {
      var t :| t in slots && EntryAt(url, s, t) == e;
      SlotIsShownOnce(kind, es, url, s, slots, t);
    } else if e in es {
      assert IsOfSlot(e, url, s, slots);
      var t :| t in slots && (e == EntryAt(url, s, t) || e == PlainEntry(url, s, t));
      assert EntryAt(url, s, t) in EntriesAt(url, s, slots);
      CopyIsDropped(kind, es, url, s, slots, t);
    } else {
      KeptKeepsMultiplicity(kind, es, OverrideKeys(es), e);
    }
  }

  /** What is shown for an entry is what the expansion shows at its slot. */
  lemma EntryShowsExpansion(url: string, s: Series, t: int)
    requires IsRecurringEvent(s)
    ensures ShownAt(s, t)
         == ShownOverride(EntryAt(url, s, t).component.body, s.master.body.location, s.master.body.description)
  {
  }

  /** Events are always looked up at their own slots, and so are tasks unless they have a start and a due
      date apart from it. */
  lemma FetchShowsSeries(kind: Kind, es: seq<Entry>, url: string, s: Series, slots: set<int>)
    requires IsServable(kind, s) && Reports(es, url, s, slots) && Gap(kind, s) == 0
    ensures ShowsExactly(Result(kind, es), url, s, slots)
  {
    FetchShowsSeriesIff(kind, es, url, s, slots);
  }

  // ----- A task that spans a day -----

  const SPAN := Body("u", Some(0), Some(DAY), None, "", "", "", NO_PROGRESS, None, [])

  const SECOND_DAY := Override(DAY, SPAN.(start := Some(DAY), end := Some(2 * DAY)))

  /** A daily task due a day after its start, whose second occurrence was detached. */
  const DAY_LONG := Series(Master(SPAN, false, Some(Rule(DAY, Forever)), []), [SECOND_DAY])

  lemma DayLongIsServable()
    ensures IsServable(Todo, DAY_LONG) && Gap(Todo, DAY_LONG) == DAY
    ensures Visible(DAY_LONG, 0) && !Overridden(DAY_LONG, 0)
    ensures Visible(DAY_LONG, DAY) && Find(DAY_LONG.overrides, DAY) == Some(SECOND_DAY)
  {
    DailySlots();
    OneOverride(DAY_LONG.overrides);
    assert Fits(DAY_LONG, SECOND_DAY);
  }

  lemma DailySlots()
    ensures IsSlot(0, Rule(DAY, Forever), 0) && IsSlot(0, Rule(DAY, Forever), DAY)
  {
    IsSlotClosedForm(0, Rule(DAY, Forever), 0);
    IsSlotClosedForm(0, Rule(DAY, Forever), DAY);
  }

  lemma OneOverride(ovs: seq<Override>)
    requires ovs == [SECOND_DAY]
    ensures Find(ovs, 0) == None && Find(ovs, DAY) == Some(SECOND_DAY)
  {
    assert ovs[1..] == [];
  }

  lemma BothAreReported(es: seq<Entry>)
    requires es == [EntryAt("url", DAY_LONG, 0), EntryAt("url", DAY_LONG, DAY)]
    ensures Reports(es, "url", DAY_LONG, {0, DAY})
  {
    DayLongIsServable();
    EntriesFixSlots("url", DAY_LONG, 0, DAY);
    assert IsOfSlot(es[0], "url", DAY_LONG, {0, DAY}) && IsOfSlot(es[1], "url", DAY_LONG, {0, DAY});
  }

  /** Once the occurrence of one day is detached, that of the day before is not shown any more. */
  lemma DetachedTaskHidesDayBefore()
    ensures var es := [EntryAt("url", DAY_LONG, 0), EntryAt("url", DAY_LONG, DAY)];
      && IsServable(Todo, DAY_LONG) && Reports(es, "url", DAY_LONG, {0, DAY}) && Visible(DAY_LONG, 0)
      && EntryAt("url", DAY_LONG, 0) !in Result(Todo, es)
  {
    var plain := EntryAt("url", DAY_LONG, 0);
    var es := [plain, EntryAt("url", DAY_LONG, DAY)];
    DayLongIsServable();
    BothAreReported(es);
    PlainIsKeptIff(Todo, es, "url", DAY_LONG, {0, DAY}, 0);
    KeptKeepsMultiplicity(Todo, es, OverrideKeys(es), plain);
    assert plain !in multiset(Result(Todo, es));
  }
}
