/** The agenda loader: 30-day windows are fetched one after the other, filtered to the window,
    deduplicated, sorted and appended. Instants are milliseconds. */
module Agenda {
  import opened Lists

  const CHUNK := 2592000000  // 30 days
  const MAX_EMPTY := 6

  /** A served item. `title` is the rank of its title in the collation order; `wanted` says that it
      passes the search filter and is neither undated nor a hidden completed task. */
  datatype Item = Item(id: string, start: int, allDay: bool, title: int, wanted: bool)

  type Key = (string, int)

  function KeyOf(x: Item): Key {
    (x.id, x.start)
  }

  /** Endless tiling, a bounded search, or the fixed slice of a share. */
  datatype Mode = Tile | Bounded(to: int) | Slice(to: int)

  // ----- Order -----

  /** `agendaCompare` is not positive: by start, all-day first, then by title. */
  predicate Precedes(a: Item, b: Item) {
    if a.start != b.start then a.start < b.start
    else if a.allDay != b.allDay then a.allDay
    else a.title <= b.title
  }

  ghost predicate DistinctKeys(rows: seq<Item>) {
    forall i, j | 0 <= i < j < |rows| :: KeyOf(rows[i]) != KeyOf(rows[j])
  }

  ghost predicate SortedRows(rows: seq<Item>) {
    forall i, j | 0 <= i < j < |rows| :: Precedes(rows[i], rows[j])
  }

  /** The order is total and transitive, and in sorted rows starts never go back; at one start no
      all-day row comes after a timed one, and rows of one kind are in title order. */
  lemma AgendaOrder(rows: seq<Item>, i: nat, j: nat, x: Item, y: Item, z: Item)
    requires SortedRows(rows) && i < j < |rows|
    ensures rows[i].start <= rows[j].start
    ensures rows[i].start == rows[j].start && rows[j].allDay ==> rows[i].allDay
    ensures rows[i].start == rows[j].start && rows[i].allDay == rows[j].allDay ==> rows[i].title <= rows[j].title
    ensures Precedes(x, y) || Precedes(y, x)
    ensures Precedes(x, y) && Precedes(y, z) ==> Precedes(x, z)
  {
    assert Precedes(rows[i], rows[j]);
  }

  function Insert(rows: seq<Item>, x: Item): seq<Item> {
    if rows == [] then [x]
    else if Precedes(rows[|rows| - 1], x) then rows + [x]
    else Insert(rows[..|rows| - 1], x) + [rows[|rows| - 1]]
  }

  /** A stable sort by `agendaCompare`. */
  function Sort(rows: seq<Item>): seq<Item> {
    if rows == [] then [] else Insert(Sort(rows[..|rows| - 1]), rows[|rows| - 1])
  }

  lemma {:induction false} InsertKeepsElements(rows: seq<Item>, x: Item)
    ensures multiset(Insert(rows, x)) == multiset(rows) + multiset{x}
  {
    if rows != [] {
      InsertKeepsElements(rows[..|rows| - 1], x);
      assert rows == rows[..|rows| - 1] + [rows[|rows| - 1]];
    }
  }

  lemma {:induction false} InsertSorts(rows: seq<Item>, x: Item)
    requires SortedRows(rows)
    ensures SortedRows(Insert(rows, x))
  {
    if rows != [] && !Precedes(rows[|rows| - 1], x) {
      var front, last := rows[..|rows| - 1], rows[|rows| - 1];
      InsertSorts(front, x);
      InsertKeepsElements(front, x);
      forall r | r in Insert(front, x) ensures Precedes(r, last) {
        assert r in multiset(Insert(front, x));
      }
    }
  }

  lemma {:induction false} SortKeepsElements(rows: seq<Item>)
    ensures multiset(Sort(rows)) == multiset(rows)
  {
    if rows != [] {
      var front, last := rows[..|rows| - 1], rows[|rows| - 1];
      SortKeepsElements(front);
      InsertKeepsElements(Sort(front), last);
      SplitLast(rows);
    }
  }

  lemma SplitLast(rows: seq<Item>)
    requires rows != []
    ensures multiset(rows) == multiset(rows[..|rows| - 1]) + multiset{rows[|rows| - 1]}
  {
    assert rows == rows[..|rows| - 1] + [rows[|rows| - 1]];
  }

  lemma {:induction false} SortSorts(rows: seq<Item>)
    ensures SortedRows(Sort(rows))
  {
    if rows != [] {
      SortSorts(rows[..|rows| - 1]);
      InsertSorts(Sort(rows[..|rows| - 1]), rows[|rows| - 1]);
    }
  }

  // ----- Loading one window -----

  datatype State = State(cursor: int, emptyRuns: nat, done: bool, seen: set<Key>, rows: seq<Item>)

  function Reset(from: int): State {
    State(from, 0, false, {}, [])
  }

  predicate InWindow(x: Item, from: int, to: int) {
    x.wanted && from <= x.start < to
  }

  /** The items of a response that are new rows, in the order served. */
  function Fresh(data: seq<Item>, from: int, to: int, seen: set<Key>): seq<Item> {
    if data == [] then []
    else
      var front, x := Fresh(data[..|data| - 1], from, to, seen), data[|data| - 1];
      if InWindow(x, from, to) && KeyOf(x) !in seen + Keys(front) then front + [x] else front
  }

  function Keys(rows: seq<Item>): set<Key> {
    set x | x in rows :: KeyOf(x)
  }

  function WindowEnd(mode: Mode, from: int): int {
    match mode
    case Tile => from + CHUNK
    case Bounded(to) => to
    case Slice(to) => to
  }

  predicate AtBound(mode: Mode, cursor: int) {
    mode.Bounded? && mode.to <= cursor
  }

  /** One call that is answered with `data`. */
  function Loaded(s: State, mode: Mode, data: seq<Item>): State {
    if s.done then s
    else if AtBound(mode, s.cursor) then s.(done := true)
    else
      var to := WindowEnd(mode, s.cursor);
      var found := Fresh(data, s.cursor, to, s.seen);
      var emptyRuns := if found == [] then s.emptyRuns + 1 else 0;
      State(to, emptyRuns,
            !mode.Tile? || MAX_EMPTY <= emptyRuns,
            s.seen + Keys(found), s.rows + Sort(found))
  }

  /** One call whose request fails. */
  function Failed(s: State): State {
    s.(done := true)
  }

  class Loader {
    var mode: Mode
    var loading: bool
    var cursor: int
    var emptyRuns: nat
    var done: bool
    var seen: set<Key>
    var rows: seq<Item>

    constructor (from: int, mode: Mode)
      ensures Value() == Reset(from) && this.mode == mode && !loading
    {
      this.mode, loading := mode, false;
      cursor, emptyRuns, done, seen, rows := from, 0, false, {}, [];
    }

    function Value(): State
      reads this
    {
      State(cursor, emptyRuns, done, seen, rows)
    }

    /** `agendaReset`: a search bounds the agenda anew, and the guard against overlapping loads falls. */
    method AgendaReset(from: int, mode: Mode)
      modifies this
      ensures Value() == Reset(from) && this.mode == mode && !loading
    {
      this.mode, loading := mode, false;
      cursor, emptyRuns, done, seen, rows := from, 0, false, {}, [];
    }

    /** `agendaLoadMore`, answered with `data` or not at all, with nothing else in between. */
    method LoadMore(data: Option<seq<Item>>)
      modifies this
      ensures mode == old(mode) && loading == old(loading)
      ensures Value() == if old(loading) then old(Value()) else
        match data
        case Some(items) => Loaded(old(Value()), mode, items)
        case None => Failed(old(Value()))
    {
      if loading || done {
        return;
      }
      loading := true;
      if AtBound(mode, cursor) {
        done := true;
        loading := false;
        return;
      }
      if data.None? {
        done := true;
        loading := false;
        return;
      }
      var from, to := cursor, WindowEnd(mode, cursor);
      var found := CollectFresh(data.value, from, to);
      if |found| == 0 {
        emptyRuns := emptyRuns + 1;
        if !mode.Bounded? && MAX_EMPTY <= emptyRuns {
          done := true;
        }
      } else {
        emptyRuns := 0;
        rows := rows + Sort(found);
      }
      cursor := to;
      if !mode.Tile? {
        done := true;
      }
      loading := false;
    }

    /** The items of a response that are new rows; their keys are remembered. */
    method CollectFresh(data: seq<Item>, from: int, to: int) returns (found: seq<Item>)
      modifies this`seen
      ensures found == Fresh(data, from, to, old(seen))
      ensures seen == old(seen) + Keys(found)
    {
      found := [];
      for i := 0 to |data|
        invariant found == Fresh(data[..i], from, to, old(seen))
        invariant seen == old(seen) + Keys(found)
      {
        assert data[..i + 1][..i] == data[..i];
        var x := data[i];
        if x.wanted && from <= x.start < to && KeyOf(x) !in seen {
          seen := seen + {KeyOf(x)};
          found := found + [x];
        }
      }
      assert data[..|data|] == data;
    }
  }

  // ----- Paging against one query -----

  /** A server that holds `world` answers a window with everything in it that starts there, and
      possibly with more of what it holds. */
  ghost predicate Answers(world: set<Item>, data: seq<Item>, from: int, to: int) {
    && (forall x | x in data :: x in world)
    && (forall x | x in world && from <= x.start < to :: x in data)
  }

  /** A load that succeeds, one that fails, or the retry of a failed one. */
  datatype Event = Load(data: seq<Item>) | Fail | Retry

  function Next(s: State, mode: Mode, ev: Event): State {
    match ev
    case Load(data) => Loaded(s, mode, data)
    case Fail => Failed(s)
    case Retry => s.(done := false)
  }

  function RunFrom(from: int, mode: Mode, evs: seq<Event>): State {
    if evs == [] then Reset(from) else Next(RunFrom(from, mode, evs[..|evs| - 1]), mode, evs[|evs| - 1])
  }

  ghost predicate Served(world: set<Item>, from: int, mode: Mode, evs: seq<Event>) {
    evs == [] ||
    var before, ev := evs[..|evs| - 1], evs[|evs| - 1];
    var s := RunFrom(from, mode, before);
    && Served(world, from, mode, before)
    && (ev.Load? ==> Answers(world, ev.data, s.cursor, WindowEnd(mode, s.cursor)))
  }

  /** The rows answer one query for everything wanted that starts in [from, to). */
  ghost predicate IsAnswer(rows: seq<Item>, world: set<Item>, from: int, to: int) {
    && (forall x | x in rows :: x in world && InWindow(x, from, to))
    && (forall x | x in world && InWindow(x, from, to) :: KeyOf(x) in Keys(rows))
    && DistinctKeys(rows)
    && SortedRows(rows)
  }

  ghost predicate NothingIn(world: set<Item>, from: int, to: int) {
    forall x | x in world :: !InWindow(x, from, to)
  }

  lemma {:induction false} FreshCollects(data: seq<Item>, from: int, to: int, seen: set<Key>)
    ensures var found := Fresh(data, from, to, seen);
      && (forall x | x in found :: x in data && InWindow(x, from, to) && KeyOf(x) !in seen)
      && (forall x | x in data && InWindow(x, from, to) :: KeyOf(x) in seen + Keys(found))
      && DistinctKeys(found)
  {
    if data != [] {
      var n := |data| - 1;
      FreshCollects(data[..n], from, to, seen);
      var front, x := Fresh(data[..n], from, to, seen), data[n];
      assert data == data[..n] + [x];
      if InWindow(x, from, to) && KeyOf(x) !in seen + Keys(front) {
        KeysExtend(front, x);
        DistinctExtends(front, x);
        assert Fresh(data, from, to, seen) == front + [x];
      }
    }
  }

  lemma SortedKeepsAnswer(found: seq<Item>)
    requires DistinctKeys(found)
    ensures var sorted := Sort(found);
      && SortedRows(sorted)
      && (forall x :: x in sorted <==> x in found)
      && Keys(sorted) == Keys(found)
      && DistinctKeys(sorted)
  {
    SortSorts(found);
    SortKeepsElements(found);
    var sorted := Sort(found);
    forall x ensures x in sorted <==> x in found {
      assert x in sorted <==> x in multiset(sorted);
      assert x in found <==> x in multiset(found);
    }
    DistinctKeysTransfer(found, sorted);
  }

  lemma {:induction false} KeyCount(rows: seq<Item>)
    ensures |Keys(rows)| <= |rows|
    ensures |Keys(rows)| == |rows| <==> DistinctKeys(rows)
  {
    if rows != [] {
      var front, last := rows[..|rows| - 1], rows[|rows| - 1];
      KeyCount(front);
      KeysExtend(front, last);
      assert rows == front + [last];
      if KeyOf(last) in Keys(front) {
        var x :| x in front && KeyOf(x) == KeyOf(last);
        var i :| 0 <= i < |front| && front[i] == x;
        assert KeyOf(rows[i]) == KeyOf(rows[|rows| - 1]);
        assert !DistinctKeys(rows);
      } else {
        DistinctExtends(front, last);
      }
    }
  }

  lemma KeysExtend(rows: seq<Item>, x: Item)
    ensures Keys(rows + [x]) == Keys(rows) + {KeyOf(x)}
  {
  }

  lemma DistinctExtends(rows: seq<Item>, x: Item)
    requires KeyOf(x) !in Keys(rows)
    ensures DistinctKeys(rows + [x]) <==> DistinctKeys(rows)
  {
    var all := rows + [x];
    forall i | 0 <= i < |rows| ensures KeyOf(rows[i]) != KeyOf(x) && all[i] == rows[i] {
      assert rows[i] in rows;
    }
    if DistinctKeys(all) {
      forall i, j | 0 <= i < j < |rows| ensures KeyOf(rows[i]) != KeyOf(rows[j]) {
        assert KeyOf(all[i]) != KeyOf(all[j]);
      }
    }
  }

  lemma DistinctKeysTransfer(a: seq<Item>, b: seq<Item>)
    requires multiset(a) == multiset(b)
    requires DistinctKeys(a)
    ensures DistinctKeys(b)
  {
    KeyCount(a);
    KeyCount(b);
    assert |a| == |multiset(a)| == |multiset(b)| == |b|;
    forall x ensures x in a <==> x in b {
      assert x in a <==> x in multiset(a);
      assert x in b <==> x in multiset(b);
    }
    assert Keys(a) == Keys(b);
  }

  // ----- When a window extends an answer -----

  function Max(a: int, b: int): int {
    if a < b then b else a
  }

  function Min(a: int, b: int): int {
    if a < b then a else b
  }

  /** The window [from, to) may follow rows for [first, cursor): nothing wanted lies between the two, and
      nothing before the rows or behind the new cursor is shown. */
  ghost predicate Extends(world: set<Item>, first: int, cursor: int, from: int, to: int) {
    && NothingIn(world, Max(first, cursor), Min(from, to))
    && NothingIn(world, from, Min(first, to))
    && NothingIn(world, Max(first, to), cursor)
  }

  /** The rows of a load are those of its window that the agenda does not have. */
  lemma FoundIsNew(rows: seq<Item>, data: seq<Item>, world: set<Item>, first: int, cursor: int, from: int, to: int)
    requires IsAnswer(rows, world, first, cursor) && Answers(world, data, from, to)
    ensures var found := Fresh(data, from, to, Keys(rows));
      && (forall x | x in found :: x in world && InWindow(x, from, to) && !InWindow(x, first, cursor))
      && (forall x | x in world && InWindow(x, from, to) && !InWindow(x, first, cursor) :: KeyOf(x) in Keys(found))
      && DistinctKeys(found)
  {
    FreshCollects(data, from, to, Keys(rows));
  }

  /** Appending a load to the rows that are there keeps them the answer to one query, up to the end of
      its window, iff the window extends them. */
  lemma LoadKeepsAnswerIff(rows: seq<Item>, data: seq<Item>, world: set<Item>,
                           first: int, cursor: int, from: int, to: int)
    requires IsAnswer(rows, world, first, cursor) && Answers(world, data, from, to)
    ensures var found := Fresh(data, from, to, Keys(rows));
      && (IsAnswer(rows + Sort(found), world, first, to) <==> Extends(world, first, cursor, from, to))
      && Keys(rows + Sort(found)) == Keys(rows) + Keys(found)
  {
    var found := Fresh(data, from, to, Keys(rows));
    FoundIsNew(rows, data, world, first, cursor, from, to);
    SortedKeepsAnswer(found);
    KeysOfConcat(rows, Sort(found));
    if Extends(world, first, cursor, from, to) {
      ExtensionIsAnswer(rows, Sort(found), world, first, cursor, from, to);
    }
    if IsAnswer(rows + Sort(found), world, first, to) {
      AnswerIsExtension(rows, Sort(found), world, first, cursor, from, to);
    }
  }

  lemma KeysOfConcat(a: seq<Item>, b: seq<Item>)
    ensures Keys(a + b) == Keys(a) + Keys(b)
  {
  }

  /** What is known of the rows a load appends. */
  ghost predicate IsNew(more: seq<Item>, world: set<Item>, first: int, cursor: int, from: int, to: int) {
    && (forall x | x in more :: x in world && InWindow(x, from, to) && !InWindow(x, first, cursor))
    && (forall x | x in world && InWindow(x, from, to) && !InWindow(x, first, cursor) :: KeyOf(x) in Keys(more))
    && DistinctKeys(more) && SortedRows(more)
  }

  lemma ExtensionIsAnswer(rows: seq<Item>, more: seq<Item>, world: set<Item>,
                          first: int, cursor: int, from: int, to: int)
    requires IsAnswer(rows, world, first, cursor) && IsNew(more, world, first, cursor, from, to)
    requires Extends(world, first, cursor, from, to)
    ensures IsAnswer(rows + more, world, first, to)
  {
    var all := rows + more;
    KeysOfConcat(rows, more);
    forall x | x in all ensures x in world && InWindow(x, first, to) {
      assert x in rows || x in more;
    }
    forall x | x in world && InWindow(x, first, to) ensures KeyOf(x) in Keys(all) {
      assert InWindow(x, first, cursor) || InWindow(x, from, to);
    }
    forall i, j | 0 <= i < j < |all| ensures KeyOf(all[i]) != KeyOf(all[j]) && Precedes(all[i], all[j]) {
      if i < |rows| <= j {
        assert all[i] in rows && all[j] in more;
      } else if j < |rows| {
        assert all[i] == rows[i] && all[j] == rows[j];
      } else {
        assert all[i] == more[i - |rows|] && all[j] == more[j - |rows|];
      }
    }
  }

  lemma AnswerIsExtension(rows: seq<Item>, more: seq<Item>, world: set<Item>,
                          first: int, cursor: int, from: int, to: int)
    requires IsAnswer(rows, world, first, cursor) && IsNew(more, world, first, cursor, from, to)
    requires IsAnswer(rows + more, world, first, to)
    ensures Extends(world, first, cursor, from, to)
  {
    var all := rows + more;
    forall x | x in rows || x in more ensures InWindow(x, first, to) {
      assert x in all;
    }
    forall x | x in world && InWindow(x, first, to) ensures InWindow(x, first, cursor) || InWindow(x, from, to) {
      var y :| y in all && KeyOf(y) == KeyOf(x);
      assert y in rows || y in more;
    }
    forall x | x in world && InWindow(x, first, cursor) ensures x.start < to {
      var y :| y in rows && KeyOf(y) == KeyOf(x);
    }
    forall x | x in world && InWindow(x, from, to) && !InWindow(x, first, cursor) ensures first <= x.start {
      var y :| y in more && KeyOf(y) == KeyOf(x);
    }
  }

  /** What every state of a run keeps: the rows answer the query up to the cursor, and the seen keys
      are theirs. */
  ghost predicate Invariant(s: State, world: set<Item>, from: int) {
    from <= s.cursor && IsAnswer(s.rows, world, from, s.cursor) && s.seen == Keys(s.rows)
  }

  lemma LoadKeepsInvariant(s: State, mode: Mode, data: seq<Item>, world: set<Item>, from: int)
    requires Invariant(s, world, from)
    requires !s.done && !AtBound(mode, s.cursor) && s.cursor <= WindowEnd(mode, s.cursor)
    requires Answers(world, data, s.cursor, WindowEnd(mode, s.cursor))
    ensures Invariant(Loaded(s, mode, data), world, from)
    ensures Fresh(data, s.cursor, WindowEnd(mode, s.cursor), s.seen) == []
      <==> forall x | x in world :: !InWindow(x, s.cursor, WindowEnd(mode, s.cursor))
  {
    var to := WindowEnd(mode, s.cursor);
    var found := Fresh(data, s.cursor, to, s.seen);
    LoadKeepsAnswerIff(s.rows, data, world, from, s.cursor, s.cursor, to);
    FoundIsNew(s.rows, data, world, from, s.cursor, s.cursor, to);
    if found != [] {
      assert found[0] in found;
    }
  }

  /** The fixed window of a share, or a search, does not end before it starts. */
  predicate Sensible(mode: Mode, from: int) {
    mode.Tile? || from <= mode.to
  }

  /** After any run of loads, failures and retries the rows are exactly the wanted items that start
      between the first cursor and the current one, each key once, in agenda order. */
  lemma {:induction false} PagingIsOneQuery(world: set<Item>, from: int, mode: Mode, evs: seq<Event>)
    requires Served(world, from, mode, evs) && Sensible(mode, from)
    ensures var s := RunFrom(from, mode, evs);
      && Invariant(s, world, from)
      && (mode.Tile? || s.cursor <= mode.to)
    decreases |evs|
  {
    if evs != [] {
      var before, ev := evs[..|evs| - 1], evs[|evs| - 1];
      PagingIsOneQuery(world, from, mode, before);
      var s := RunFrom(from, mode, before);
      if ev.Load? && !s.done && !AtBound(mode, s.cursor) {
        LoadKeepsInvariant(s, mode, ev.data, world, from);
      }
    }
  }

  /** When the keys of the world are unambiguous the rows are the answer as a set. */
  lemma AnswerIsTheQuery(rows: seq<Item>, world: set<Item>, from: int, to: int)
    requires IsAnswer(rows, world, from, to)
    requires forall x, y | x in world && y in world && KeyOf(x) == KeyOf(y) :: x == y
    ensures (set x | x in rows) == set x | x in world && InWindow(x, from, to)
  {
    forall x | x in world && InWindow(x, from, to) ensures x in rows {
      var y :| y in rows && KeyOf(y) == KeyOf(x);
      assert y in world;
    }
  }

  // ----- When loading stops -----

  /** A failed load that is retried goes on where it was. */
  lemma RetryResumes(s: State, mode: Mode)
    requires !s.done
    ensures Next(s, mode, Fail).done && Next(Next(s, mode, Fail), mode, Retry) == s
  {
  }

  /** A bounded search and the slice of a share are loaded by one request: one that succeeds ends at the bound
      and is the last. Retried there, a search asks for nothing more. */
  lemma BoundedLoadsOnce(s: State, mode: Mode, data: seq<Item>)
    requires !s.done && !mode.Tile?
    ensures var s' := Loaded(s, mode, data);
      && s'.done
      && (mode.Slice? || s.cursor < mode.to ==> s'.cursor == mode.to)
      && (mode.Bounded? && mode.to <= s.cursor ==> s' == s.(done := true))
  {
  }

  predicate OnlyLoads(evs: seq<Event>) {
    forall i | 0 <= i < |evs| :: evs[i].Load?
  }

  /** Loads that were asked for while there was more to load. */
  predicate AllEffective(from: int, evs: seq<Event>) {
    evs == [] || (AllEffective(from, evs[..|evs| - 1]) && !RunFrom(from, Tile, evs[..|evs| - 1]).done)
  }

  /** One effective load while tiling. */
  lemma TileLoad(s: State, data: seq<Item>, world: set<Item>, from: int)
    requires Invariant(s, world, from) && !s.done && Answers(world, data, s.cursor, s.cursor + CHUNK)
    ensures var s' := Loaded(s, Tile, data);
      && s'.cursor == s.cursor + CHUNK
      && s'.emptyRuns == (if NothingIn(world, s.cursor, s'.cursor) then s.emptyRuns + 1 else 0)
      && (s'.done <==> MAX_EMPTY <= s'.emptyRuns)
  {
    LoadKeepsInvariant(s, Tile, data, world, from);
  }

  /** What the first `n` loads of a run leave for the next one. */
  lemma TileRunStep(world: set<Item>, from: int, evs: seq<Event>)
    requires evs != [] && Served(world, from, Tile, evs) && OnlyLoads(evs) && AllEffective(from, evs)
    ensures var before, s, s' := evs[..|evs| - 1], RunFrom(from, Tile, evs[..|evs| - 1]), RunFrom(from, Tile, evs);
      && Served(world, from, Tile, before) && OnlyLoads(before) && AllEffective(from, before)
      && !s.done
      && s'.cursor == s.cursor + CHUNK
      && s'.emptyRuns == (if NothingIn(world, s.cursor, s'.cursor) then s.emptyRuns + 1 else 0)
      && (s'.done <==> MAX_EMPTY <= s'.emptyRuns)
  {
    var before, ev := evs[..|evs| - 1], evs[|evs| - 1];
    PagingIsOneQuery(world, from, Tile, before);
    TileLoad(RunFrom(from, Tile, before), ev.data, world, from);
  }

  /** Tiling advances one chunk per load, and the counter of empty windows is honest: the windows it
      counts, the latest ones, hold nothing wanted. */
  lemma {:induction false} EmptyRunsAreEmpty(world: set<Item>, from: int, evs: seq<Event>)
    requires Served(world, from, Tile, evs) && OnlyLoads(evs) && AllEffective(from, evs)
    ensures var s := RunFrom(from, Tile, evs);
      && s.cursor == from + |evs| * CHUNK
      && NothingIn(world, s.cursor - s.emptyRuns * CHUNK, s.cursor)
      && (s.done <==> 6 <= s.emptyRuns)
    decreases |evs|
  {
    if evs != [] {
      TileRunStep(world, from, evs);
      EmptyRunsAreEmpty(world, from, evs[..|evs| - 1]);
      var s, s' := RunFrom(from, Tile, evs[..|evs| - 1]), RunFrom(from, Tile, evs);
      NothingConcatenates(world, s.cursor - s.emptyRuns * CHUNK, s.cursor, s'.cursor);
    }
  }

  lemma NothingConcatenates(world: set<Item>, from: int, mid: int, to: int)
    requires NothingIn(world, from, mid)
    ensures NothingIn(world, mid, to) ==> NothingIn(world, from, to)
    ensures NothingIn(world, to, to)
  {
  }

  /** If nothing wanted starts at or after the end of the first `windows` windows, the loader has
      stopped after six more. */
  lemma {:induction false} LoadingStops(world: set<Item>, from: int, windows: nat, evs: seq<Event>)
    requires Served(world, from, Tile, evs) && OnlyLoads(evs) && AllEffective(from, evs)
    requires forall x | x in world && x.wanted :: x.start < from + windows * CHUNK
    ensures var s := RunFrom(from, Tile, evs);
      && (windows <= |evs| ==> |evs| - windows <= s.emptyRuns)
      && |evs| <= windows + 6
      && (|evs| == windows + 6 ==> s.done)
    decreases |evs|
  {
    if evs != [] {
      TileRunStep(world, from, evs);
      LoadingStops(world, from, windows, evs[..|evs| - 1]);
      EmptyRunsAreEmpty(world, from, evs[..|evs| - 1]);
      var s, s' := RunFrom(from, Tile, evs[..|evs| - 1]), RunFrom(from, Tile, evs);
      if windows <= |evs| - 1 {
        assert NothingIn(world, s.cursor, s'.cursor);
        NotDoneBelowLimit(world, from, evs[..|evs| - 1]);
      }
    }
  }

  lemma NotDoneBelowLimit(world: set<Item>, from: int, evs: seq<Event>)
    requires Served(world, from, Tile, evs) && OnlyLoads(evs) && AllEffective(from, evs)
    ensures RunFrom(from, Tile, evs).done <==> MAX_EMPTY <= RunFrom(from, Tile, evs).emptyRuns
  {
    if evs != [] {
      TileRunStep(world, from, evs);
    }
  }

  // ----- Loads in flight -----

  datatype Window = Window(from: int, to: int)

  /** The loader while responses are outstanding. A load in flight remembers its own window; `first`
      is the cursor of the last reset. */
  datatype Flight = Flight(first: int, mode: Mode, s: State, loading: bool, pending: seq<Window>)

  datatype Action = Begin | Finish(k: nat, data: seq<Item>) | Break(k: nat) | Again | Restart(from: int, mode: Mode)

  predicate CanAct(f: Flight, a: Action) {
    match a
    case Finish(k, _) => k < |f.pending|
    case Break(k) => k < |f.pending|
    case _ => true
  }

  /** `agendaLoadMore` up to its fetch, after it, and its failure; the retry of a failed load; and
      `agendaReset`, which does not recall what is in flight. */
  function Act(f: Flight, a: Action): Flight
    requires CanAct(f, a)
  {
    match a
    case Begin =>
      if f.loading || f.s.done then f
      else if AtBound(f.mode, f.s.cursor) then f.(s := f.s.(done := true))
      else f.(loading := true, pending := f.pending + [Window(f.s.cursor, WindowEnd(f.mode, f.s.cursor))])
    case Finish(k, data) =>
      var w := f.pending[k];
      var found := Fresh(data, w.from, w.to, f.s.seen);
      var emptyRuns := if found == [] then f.s.emptyRuns + 1 else 0;
      var done := f.s.done || !f.mode.Tile? || MAX_EMPTY <= emptyRuns;
      f.(s := State(w.to, emptyRuns, done, f.s.seen + Keys(found), f.s.rows + Sort(found)),
         loading := false, pending := f.pending[..k] + f.pending[k + 1..])
    case Break(k) =>
      f.(s := Failed(f.s), loading := false, pending := f.pending[..k] + f.pending[k + 1..])
    case Again =>
      f.(s := f.s.(done := false))
    case Restart(from, mode) =>
      f.(first := from, mode := mode, s := Reset(from), loading := false)
  }

  /** The rows answer one query from the last reset to the cursor, and the seen keys are theirs. */
  ghost predicate InOrder(f: Flight, world: set<Item>) {
    IsAnswer(f.s.rows, world, f.first, f.s.cursor) && f.s.seen == Keys(f.s.rows)
  }

  /** Whatever is in flight, stale or not: a load that comes in keeps the agenda in order iff its window
      extends what is there. */
  lemma FinishKeepsOrderIff(f: Flight, world: set<Item>, k: nat, data: seq<Item>)
    requires InOrder(f, world) && k < |f.pending| && Answers(world, data, f.pending[k].from, f.pending[k].to)
    ensures InOrder(Act(f, Finish(k, data)), world)
        <==> Extends(world, f.first, f.s.cursor, f.pending[k].from, f.pending[k].to)
  {
    LoadKeepsAnswerIff(f.s.rows, data, world, f.first, f.s.cursor, f.pending[k].from, f.pending[k].to);
  }

  /** In particular a load that a reset to `first` has overtaken is harmless iff nothing wanted starts
      between `first` and its window. */
  lemma StaleLoadIsHarmlessIff(f: Flight, world: set<Item>, k: nat, data: seq<Item>)
    requires k < |f.pending| && f.s == Reset(f.first) && f.first <= f.pending[k].from <= f.pending[k].to
    requires Answers(world, data, f.pending[k].from, f.pending[k].to)
    ensures InOrder(Act(f, Finish(k, data)), world) <==> NothingIn(world, f.first, f.pending[k].from)
  {
    FinishKeepsOrderIff(f, world, k, data);
  }

  /** The server answers what was asked, and every load that comes in extends what is there. */
  ghost predicate Harmless(f: Flight, world: set<Item>, a: Action) {
    && CanAct(f, a)
    && (a.Finish? ==>
          var w := f.pending[a.k];
          Answers(world, a.data, w.from, w.to) && Extends(world, f.first, f.s.cursor, w.from, w.to))
  }

  ghost predicate HarmlessRun(f: Flight, world: set<Item>, acts: seq<Action>)
    decreases |acts|
  {
    acts != [] ==> Harmless(f, world, acts[0]) && HarmlessRun(Act(f, acts[0]), world, acts[1..])
  }

  ghost function ActAll(f: Flight, world: set<Item>, acts: seq<Action>): Flight
    requires HarmlessRun(f, world, acts)
    decreases |acts|
  {
    if acts == [] then f else ActAll(Act(f, acts[0]), world, acts[1..])
  }

  /** Over any run, with loads that overlap, fail, or are overtaken by resets, the rows answer one query
      from the last reset on, as long as every load that comes in extends what is there. */
  lemma {:induction false} HarmlessRunIsOneQuery(f: Flight, world: set<Item>, acts: seq<Action>)
    requires InOrder(f, world) && HarmlessRun(f, world, acts)
    ensures InOrder(ActAll(f, world, acts), world)
    decreases |acts|
  {
    if acts != [] {
      if acts[0].Finish? {
        FinishKeepsOrderIff(f, world, acts[0].k, acts[0].data);
      }
      HarmlessRunIsOneQuery(Act(f, acts[0]), world, acts[1..]);
    }
  }

  /** At most one load is in flight, and it is for the window at the cursor. */
  ghost predicate Orderly(f: Flight, world: set<Item>) {
    && Invariant(f.s, world, f.first)
    && Sensible(f.mode, f.first) && (f.mode.Tile? || f.s.cursor <= f.mode.to)
    && (if f.loading then
          f.pending == [Window(f.s.cursor, WindowEnd(f.mode, f.s.cursor))] && !AtBound(f.mode, f.s.cursor)
        else f.pending == [])
  }

  /** The server answers what was asked, and nothing is reset while a load is in flight. */
  ghost predicate Quiet(f: Flight, world: set<Item>, a: Action) {
    && CanAct(f, a)
    && (a.Finish? ==> Answers(world, a.data, f.pending[a.k].from, f.pending[a.k].to))
    && (a.Restart? ==> f.pending == [] && Sensible(a.mode, a.from))
  }

  /** The guards of the loader make loads harmless by themselves as long as no reset overtakes one: they
      keep the agenda orderly. */
  lemma QuietActIsHarmless(f: Flight, world: set<Item>, a: Action)
    requires Orderly(f, world) && Quiet(f, world, a)
    ensures Harmless(f, world, a) && Orderly(Act(f, a), world)
  {
    if a.Finish? {
      LoadKeepsAnswerIff(f.s.rows, a.data, world, f.first, f.s.cursor, f.s.cursor, WindowEnd(f.mode, f.s.cursor));
      assert f.pending[..0] + f.pending[1..] == [];
    } else if a.Break? {
      assert f.pending[..0] + f.pending[1..] == [];
    }
  }

  ghost predicate QuietRun(f: Flight, world: set<Item>, acts: seq<Action>)
    decreases |acts|
  {
    acts != [] ==> Quiet(f, world, acts[0]) && QuietRun(Act(f, acts[0]), world, acts[1..])
  }

  /** So over any run in which no reset overtakes a load the rows answer one query. */
  lemma {:induction false} QuietRunIsOneQuery(f: Flight, world: set<Item>, acts: seq<Action>)
    requires Orderly(f, world) && QuietRun(f, world, acts)
    ensures HarmlessRun(f, world, acts) && InOrder(ActAll(f, world, acts), world)
    decreases |acts|
  {
    if acts != [] {
      QuietActIsHarmless(f, world, acts[0]);
      QuietRunIsOneQuery(Act(f, acts[0]), world, acts[1..]);
    }
  }

  /** An item is created while the second window is being fetched, and the agenda is reset: the load in
      flight comes in first and puts its later row above the earlier one. */
  lemma StaleLoadBreaksOrder(late: Item, early: Item)
    requires late.wanted && early.wanted && 0 <= early.start < CHUNK <= late.start < 2 * CHUNK
    ensures var f0 := Flight(0, Tile, State(CHUNK, 1, false, {}, []), false, []);
      var f := Act(Act(Act(f0, Begin), Restart(0, Tile)), Begin);
      && Orderly(f0, {late})
      && f == Flight(0, Tile, Reset(0), true, [Window(CHUNK, 2 * CHUNK), Window(0, CHUNK)])
      && Answers({late, early}, [late], CHUNK, 2 * CHUNK) && Answers({late, early}, [early], 0, CHUNK)
      && var f1 := Act(f, Finish(0, [late]));
         f1.pending == [Window(0, CHUNK)] && !SortedRows(Act(f1, Finish(0, [early])).s.rows)
  {
    ResetOvertakesLoad(late);
    StaleLoadFinishesFirst(late, early);
  }

  lemma ResetOvertakesLoad(late: Item)
    requires CHUNK <= late.start
    ensures var f0 := Flight(0, Tile, State(CHUNK, 1, false, {}, []), false, []);
      && Orderly(f0, {late})
      && Act(Act(Act(f0, Begin), Restart(0, Tile)), Begin)
         == Flight(0, Tile, Reset(0), true, [Window(CHUNK, 2 * CHUNK), Window(0, CHUNK)])
  {
    var f0 := Flight(0, Tile, State(CHUNK, 1, false, {}, []), false, []);
    assert Act(f0, Begin).pending == [Window(CHUNK, 2 * CHUNK)];
  }

  lemma StaleLoadFinishesFirst(late: Item, early: Item)
    requires late.wanted && early.wanted && 0 <= early.start < CHUNK <= late.start < 2 * CHUNK
    ensures var f := Flight(0, Tile, Reset(0), true, [Window(CHUNK, 2 * CHUNK), Window(0, CHUNK)]);
      var f1 := Act(f, Finish(0, [late]));
      f1.pending == [Window(0, CHUNK)] && !SortedRows(Act(f1, Finish(0, [early])).s.rows)
  {
    var f := Flight(0, Tile, Reset(0), true, [Window(CHUNK, 2 * CHUNK), Window(0, CHUNK)]);
    FinishesWithOne(f, late);
    var f1 := Act(f, Finish(0, [late]));
    FinishesWithOne(f1, early);
    var rows := Act(f1, Finish(0, [early])).s.rows;
    assert rows == [] + [late] + [early];
    assert !Precedes(rows[0], rows[1]);
  }

  lemma FinishesWithOne(f: Flight, x: Item)
    requires f.pending != [] && InWindow(x, f.pending[0].from, f.pending[0].to) && KeyOf(x) !in f.s.seen
    ensures var f' := Act(f, Finish(0, [x]));
      f'.s.rows == f.s.rows + [x] && f'.s.seen == f.s.seen + {KeyOf(x)} && f'.pending == f.pending[1..]
  {
    OneFresh(x, f.pending[0].from, f.pending[0].to, f.s.seen);
    assert Keys([x]) == {KeyOf(x)};
    assert f.pending[..0] + f.pending[1..] == f.pending[1..];
  }

  lemma OneFresh(x: Item, from: int, to: int, seen: set<Key>)
    requires InWindow(x, from, to) && KeyOf(x) !in seen
    ensures Fresh([x], from, to, seen) == [x] && Sort([x]) == [x]
  {
    assert [x][..0] == [] && Keys([]) == {};
  }
}
