# WebCalDav: a verified model of scoped recurring edits

WebCalDav lets a user edit one occurrence of a recurring event or task, that occurrence and all
later ones, or the whole series, and stores the result as iCalendar resources. This project models
that edit engine and the smaller state machines around it, and proves what they do to what the user
sees.

**Resources.** A resource is a master component (start, end, text, alarms, recurrence rule,
EXDATEs) and a list of detached overrides, each keyed by its RECURRENCE-ID. `Recurrence.dfy` holds
the fixed-step rules and the enumeration loops over them, `CalendarObject.dfy` the data model, what each
edit makes of a resource, and class `Ical`, which makes the edit in place step by step the way the
program does. `Store.dfy` and `Tasks.dfy` are the requests against the store, `EditEffects.dfy` and
`RequestLaws.dfy` say what they do to every property of it.

**What is shown.** `Expansion.dfy` defines, independently of any edit, which slots show an occurrence
and what it shows: an override wins at its slot, an EXDATE removes a plain slot, any other slot shows
the master. `EventLaws.dfy`, `TaskLaws.dfy` and `MoveRuns.dfy` relate edits, and whole runs of edits of
events and tasks, through it; `Fetch.dfy` relates what is fetched from a server to it.

**Around it.** `Reminders.dfy` and `Alarms.dfy` are the reminder rows and the VALARMs they are
stored as; `RuleCodec.dfy` the structured recurrence rule; `Agenda.dfy`, `Notifications.dfy`,
`RateLimit.dfy` and `Sessions.dfy` the agenda loader, the notification scheduler, the login throttle and the
session store. `Lists.dfy`, `Decimal.dfy` and `Ascii.dfy` are shared helpers.

Methods are proved equal to functions of their inputs or of the old state; the laws are lemmas about
those functions. Time is one integer line: seconds for calendars, milliseconds in the browser,
microseconds for throttle and sessions. Clocks, fresh uids, session tokens, server responses and the
number of the timer that goes off are parameters.

**Where the code falls short of its promise.** Each case names the lemma with the condition under
which the promise holds, and one with a concrete input (`Counterexamples.dfy` collects those that do
not stand beside their law):

- deleting one occurrence leaves it in place when it has been customised (`DeleteThisRemovesIff`,
  `DeleteThisByNameIff`, `DeletingLeavesOverride`), and deleting from the time it was moved to on cuts
  there and not at its slot (`DeleteFutureByNameIff`, `DeletingFutureKeepsMoved`);
- an occurrence dragged onto another's slot captures requests for the other (`ResolveCanMiss`,
  `StableIdResolvesIff`, `DisplayedStartResolvesIff`);
- a new rule, or a whole-series edit that names no occurrence, can leave overrides without a slot
  (`NewRuleKeepsWellFormedIff`, `NewRuleSplitKeepsWellFormedIff`, `NewRuleFirstKeepsWellFormedIff`,
  `NewRuleCanOrphan`, `PivotlessEditKeepsWellFormedIff`, `PivotlessEditOrphans`);
- an edit with scope thisfuture that changes which date a task is anchored on puts its slots elsewhere than
  its exclusions and overrides, so that a deleted occurrence can come back (`TaskSplitIsRightIff`,
  `TaskFirstIsRightIff`, `AddedStartRevivesDeleted`);
- detaching an occurrence of a task, be it by completing it, takes away its priority
  (`DetachingKeepsPriorityIff`, `CompletingDropsPriority`);
- a task due some time after its start is looked up at its due date when it is fetched, so that a detached
  occurrence can hide another one (`FetchShowsSeriesIff`, `DetachedTaskHidesDayBefore`);
- splitting a COUNT rule off its grid gains a slot (`SplitKeepsCountIff`, `OffGridSplitGains`), as does cutting
  it before its first slot (`RemainderAtFirstKeepsIff`), and so does
  splitting it with the rule of the series sent along, as the editor does (webcaldav/static/app.js:3030):
  its COUNT starts over (`NewRuleSplitCountsIff`, `ResentCountGains`);
- capping a rule that has no slots brings one back (`TruncateIsExactIff`, `TruncateCanReadmit`), and the editor's
  end-of-day UNTIL brings a dropped slot of the same day back (`EditorReadmitsIff`,
  `EditorReadmitsHourly`);
- the recurrence form forgets the ordinal of a monthly weekday rule (`FormRoundTripIff`,
  `FormChangesLastWeekday`);
- a time reset of a task with only a due date loses the due date (`TimeResetIsPlainIff`,
  `TimeResetLosesDue`);
- a whole-series edit of a task with start and due ignores a changed length (`TaskAllShowsRequestIff`,
  `LaterDueIsDropped`);
- un-completing an occurrence shows through to a master that is itself completed
  (`StatusTakesEffectIff`, `MasterShowsThrough`), and drops the texts of one that was edited but not moved
  (`UncompletingKeepsTextsIff`, `UncompletingLosesTitle`);
- on an item without an end, two reminders that differ only in their anchor are merged when saved
  again (`ReopeningIsStableIff`, `ReopeningCanMerge`), and an alarm that another client stored at more than
  10000 of every unit that divides it is lost (`ReopeningKeepsTriggersIff`, `ReopenedRowIsValidIff`,
  `LongAlarmIsDropped`);
- an agenda load that a reset has overtaken can leave rows out of order (`FinishKeepsOrderIff`,
  `StaleLoadIsHarmlessIff`, `StaleLoadBreaksOrder`);
- a notification timer more than two days late can show its tag twice (`SecondTimerRepeatsIff`,
  `DoubledTimerRepeatsIff`, `TooLateShowsTwice`).

The session store by itself could be made to show whether an overdue session had been looked at, by an
update that rescues it (`LookIsInvisibleIff`, `AnyUpdateIsSafeIff`, `LooksMatterBeforeRescue`). The
program updates a session only after a successful `get` in the same request (webcaldav/deps.py:48), and
such updates rescue nothing as long as the session does not run out during the request
(`UpdateAfterGetIsGuarded`).

## Model

| member | source | states |
|---|---|---|
| Recurrence.CountThrough | webcaldav/caldav_client.py:630-633 | the loop counts exactly the slots that are live and at or before the pivot |
| Recurrence.SlotBefore | webcaldav/caldav_client.py:648 | the loop returns the greatest slot strictly before the pivot, if any |
| Recurrence.GridThroughClosedForm | webcaldav/caldav_client.py:630-633 | enumerating an unbounded grid up to an instant counts (t - anchor) / step + 1 slots |
| Recurrence.IsSlotClosedForm | webcaldav/caldav_client.py:630-633 | the enumerated slots of a rule are exactly the whole steps after the anchor within COUNT or UNTIL |
| Recurrence.SlotsThroughCounts | webcaldav/caldav_client.py:630-633 | the i-th slot is counted through t iff it is live and at or before t, for COUNT, UNTIL and unbounded rules |
| Recurrence.TruncateKeepsEarlierSlots | webcaldav/caldav_client.py:636-661 | a capped rule's i-th slot is live iff it was live and lies before the pivot |
| Recurrence.TruncateSlots | webcaldav/caldav_client.py:636-661 | the slots of a capped rule are exactly the old ones before the pivot |
| Recurrence.CapIsBeforePivot | webcaldav/caldav_client.py:649-660 | a cap ends before the pivot, and for an all-day rule on a whole day |
| Recurrence.TruncateIsExactIff | webcaldav/caldav_client.py:650-655 | capping is exact iff the rule has a slot or the pivot is not after the anchor, the case its callers guard |
| Recurrence.TruncateCanReadmit | webcaldav/caldav_client.py:650-655 | capping a rule without slots can create one |
| Recurrence.EditorReadmitsIff | webcaldav/static/app.js:1948-1951 | rounding a cap's UNTIL to the end of its day changes no slot iff the first dropped slot is on a later day than the last kept one |
| Recurrence.EditorKeepsDailyCap | webcaldav/caldav_client.py:636-643 | for steps of a day or more the cap survives the editor: exactly the slots before the pivot remain |
| Recurrence.EditorReadmitsHourly | webcaldav/static/app.js:1948-1951 | an hourly cap does not survive the editor |
| Recurrence.ShiftMovesEverySlot | webcaldav/caldav_client.py:589-605 | moving anchor and UNTIL together moves every slot and adds or loses none |
| Recurrence.ContinuedSlots | webcaldav/caldav_client.py:746-756 | the rule carried over from slot k yields old slot k + j, moved, as its j-th |
| Recurrence.ContinuationMovesLaterSlots | webcaldav/caldav_client.py:608-622 | the carried-over rule has exactly the old slots from the pivot on, moved |
| Recurrence.SplitKeepsCountIff | webcaldav/caldav_client.py:746-756 | capped part and remainder of an n-COUNT rule have n slots together iff the pivot is a slot |
| Recurrence.RemainderIsPositive | webcaldav/caldav_client.py:746-756 | what is left of a COUNT is at least 1 and else what the slots before the pivot leave; other bounds stay |
| Recurrence.RemainderAtFirstKeepsIff | webcaldav/caldav_client.py:751-753 | at or before the first slot the COUNT stays iff the pivot is that slot, and else gains one |
| CalendarObject.Ical.ResolvePivot | webcaldav/caldav_client.py:850-883 | two searches: an override's RECURRENCE-ID, else an override's anchor, else the value itself |
| CalendarObject.Ical.PopOverrides | webcaldav/caldav_client.py:968-985 | keeps exactly the accepted overrides in order and returns the others in document order |
| CalendarObject.Ical.ShiftEach | webcaldav/caldav_client.py:886-912 | rebinds each RECURRENCE-ID and uid and leaves each override's own span |
| CalendarObject.Ical.ResetEach | webcaldav/caldav_client.py:915-965 | resets each override's chosen fields, or none |
| CalendarObject.Ical.Upsert | webcaldav/caldav_client.py:797-839 | replaces any override at the slot by one appended override |
| CalendarObject.Ical.ShiftExdate | webcaldav/caldav_client.py:683-694 | every EXDATE moves by the same amount |
| CalendarObject.Ical.TruncateUntil | webcaldav/caldav_client.py:636-661 | COUNT goes, UNTIL becomes the last slot before the pivot or the fallback |
| CalendarObject.Ical.RemainingParts | webcaldav/caldav_client.py:746-756 | COUNT is reduced by the slots before the pivot, not below 1 |
| CalendarObject.Ical.SplitExdates | webcaldav/caldav_client.py:1365-1367 | earlier EXDATEs stay, later ones are returned moved |
| CalendarObject.Ical.ApplyFields | webcaldav/caldav_client.py:759-794 | span and texts are overwritten, DURATION goes, editable alarms are replaced |
| CalendarObject.Ical.Rewrite | webcaldav/caldav_client.py:1285-1303 | the whole new resource of an in-place rewrite |
| CalendarObject.Ical.Split | webcaldav/caldav_client.py:1350-1380 | the whole capped resource and the whole spun-off resource |
| CalendarObject.Ical.EditEventAll | webcaldav/caldav_client.py:1269-1306 | scope all, with the move measured from the named occurrence or without one |
| CalendarObject.Ical.EditEventThis | webcaldav/caldav_client.py:1311-1319 | scope this detaches one override |
| CalendarObject.Ical.EditEventThisFuture | webcaldav/caldav_client.py:1321-1380 | scope thisfuture rewrites at the first slot and splits after it |
| Store.Calendar.UpdateEvent | webcaldav/caldav_client.py:1232-1383 | the new store and the outcome of every scope, including unknown uid, unknown scope and missing start |
| Store.Calendar.DeleteEvent | webcaldav/caldav_client.py:1496-1537 | the new store and the outcome of every deletion |
| RequestLaws.UpdateOutcomes | webcaldav/caldav_client.py:1232-1267 | each refusal of an update has exactly one cause and changes nothing; a request touches only its resource and, for a split, a fresh one |
| RequestLaws.PlainUpdateTakes | webcaldav/caldav_client.py:1264-1306 | an edit of a plain event, or one naming no occurrence, is saved under any scope: requested span on the grid in force, every field taken, nothing rebound |
| RequestLaws.AllUpdateTakes | webcaldav/caldav_client.py:1269-1306 | scope all moves span, slots and exclusions by what the named occurrence moved and takes every field |
| RequestLaws.ThisUpdateTakes | webcaldav/caldav_client.py:1311-1319 | scope this stores one override with the fields of the edit and leaves master and other overrides |
| RequestLaws.SplitUpdateTakes | webcaldav/caldav_client.py:1349-1380 | scope thisfuture after the first slot leaves the earlier part as it was and stores the rest, with the edit, under the fresh uid |
| RequestLaws.FirstUpdateTakes | webcaldav/caldav_client.py:1329-1348 | scope thisfuture at or before the first slot rewrites the resource in place |
| RequestLaws.DeleteOutcomes | webcaldav/caldav_client.py:1511-1535 | why a deletion is refused, and exactly when the whole resource goes: nothing recurs, nothing is named, scope all or unknown, or cut at the first slot |
| RequestLaws.DeleteTakes | webcaldav/caldav_client.py:1522-1537 | otherwise one slot is excluded, or the rule capped and later overrides dropped; everything else of the resource stays |
| EditEffects.RewritingTakes | webcaldav/caldav_client.py:1286-1303 | a rewritten master takes texts, reminders and priority and keeps uid, completion and kind of day; each override keeps what is not reset, field by field |
| EditEffects.TailTakes | webcaldav/caldav_client.py:1356-1379 | the same for the master and overrides of a spun-off series |
| EditEffects.HeadKeeps | webcaldav/caldav_client.py:1365-1368 | the part that stays keeps its master but for the rule, and its earlier exclusions and overrides |
| EditEffects.DetachingTakes | webcaldav/caldav_client.py:797-839 | a new override has the fields and reminders of the edit, the uid of the series, and nothing else |
| EditEffects.ResetTakes | webcaldav/caldav_client.py:932-957 | what a reset sets and what it leaves, field by field |
| Expansion.RewritingCommutes | webcaldav/caldav_client.py:1281-1296 | slots, exclusions and overrides of a rewritten series are the old ones moved |
| Expansion.RewritingKeepsWellFormedIff | webcaldav/caldav_client.py:1281-1296 | a rewritten series stays well-formed iff every rebound override is on the new grid |
| Expansion.TailKeepsWellFormedIff | webcaldav/caldav_client.py:1353-1380 | a spun-off series, whatever its rule and dates, is well-formed iff it has a date and every migrated override is on its grid |
| Expansion.NamedResolvesToSlot | webcaldav/caldav_client.py:850-883 | either name of a visible occurrence of an event or task resolves to a slot that is not excluded |
| EventLaws.AllCommutesWithExpansion | webcaldav/caldav_client.py:1269-1296 | scope all moves the expansion: same slots moved, exclusions kept, plain occurrences take the new fields, overrides stay where displayed |
| EventLaws.AllKeepsWellFormed | webcaldav/caldav_client.py:1281-1288 | after scope all every override is on a slot of its series that is not excluded, under the series' uid |
| EventLaws.NewRuleKeepsWellFormedIff | webcaldav/caldav_client.py:1291-1292 | with a new rule that holds iff each override is a whole number of new steps from the anchor and within the bound |
| EventLaws.NewRuleCanOrphan | webcaldav/caldav_client.py:1291-1292 | a new rule can orphan an override |
| EventLaws.NewRuleSplitKeepsWellFormedIff | webcaldav/caldav_client.py:1353-1364 | with a new rule scope thisfuture leaves the new series well-formed iff every migrated override meets its grid; the capped one stays well-formed |
| EventLaws.NewRuleFirstKeepsWellFormedIff | webcaldav/caldav_client.py:1329-1348 | the same for the series rewritten in place at its first slot |
| EventLaws.PivotlessEditKeepsWellFormedIff | webcaldav/caldav_client.py:1263-1275 | a whole-series edit naming no occurrence rebinds nothing and keeps overrides on slots iff the new grid meets them |
| EventLaws.PivotlessEditShowsRequest | webcaldav/caldav_client.py:1263-1296 | a plain event, or a series edited without naming an occurrence, shows the requested span on the grid of the rule in force wherever no override stands |
| EventLaws.NewRuleShowsRequest | webcaldav/caldav_client.py:1289-1293 | scope all with a new rule shows the edited fields on exactly the new grid from the moved start; exclusions and overrides move along |
| EventLaws.NewRuleSplitShowsRequest | webcaldav/caldav_client.py:1328-1380 | scope thisfuture with a new rule leaves what lies before the pivot and shows the edited fields on exactly the new grid; later exclusions and overrides move along |
| EventLaws.NewRuleFirstShowsRequest | webcaldav/caldav_client.py:1328-1348 | the same for the series rewritten in place at its first slot |
| EventLaws.EditSetsReminders | webcaldav/caldav_client.py:405-435 | reminders of an edit replace the editable ones on a master, next to the read-only ones; none given, none changed |
| EventLaws.DetachingSetsReminders | webcaldav/caldav_client.py:797-839 | a new override has the reminders of its edit and no others |
| EventLaws.DurationShowsEnd | webcaldav/caldav_client.py:1065-1070 | an event with a DURATION shows an end that much after its start, one of its own first |
| EventLaws.SplitShowsBothParts | webcaldav/caldav_client.py:1321-1380 | without a new rule nothing changes before the pivot, and from it on every occurrence is found moved in the new series, plain ones with the new fields, later overrides as displayed |
| EventLaws.SplitDividesCount | webcaldav/caldav_client.py:746-756 | an n-COUNT series splits at slot k into exactly k slots and COUNT n - k |
| EventLaws.NewRuleSplitCountsIff | webcaldav/caldav_client.py:1328 | with a new rule of COUNT m, n slots split at slot k stay n in total iff m is n - k |
| EventLaws.SplitCarriesReminders | webcaldav/caldav_client.py:1371-1380 | the new series shows the old reminders, or the read-only ones and the edit's |
| EventLaws.SplitKeepsBothWellFormed | webcaldav/caldav_client.py:1353-1368 | both parts keep overrides on their own slots, not excluded, under their own uid |
| EventLaws.FirstMovesEveryOccurrence | webcaldav/caldav_client.py:1329-1348 | scope thisfuture at the first slot without a new rule moves every occurrence and supersedes the override at the pivot |
| EventLaws.ThisChangesOneOccurrence | webcaldav/caldav_client.py:1311-1319 | scope this shows the edit at its slot and changes nothing elsewhere |
| EventLaws.AllWithResetShowsPlain | webcaldav/caldav_client.py:1297-1303 | after resetting time and texts on scope all, every slot shows what it would without overrides |
| EventLaws.SplitWithResetShowsPlain | webcaldav/caldav_client.py:1359-1364 | the same for both forms of scope thisfuture |
| EventLaws.ResetIsIdempotent | webcaldav/caldav_client.py:915-965 | resetting twice equals resetting once, alarms included |
| EventLaws.TimeResetIsPlainIff | webcaldav/caldav_client.py:941-948 | a time reset reproduces the plain span iff the series has a start |
| EventLaws.StableIdResolvesIff | webcaldav/caldav_client.py:864-883 | a slot resolves to itself iff it is overridden or no override was moved onto it |
| EventLaws.DisplayedStartNames | webcaldav/caldav_client.py:850-883 | slot and displayed start both name a visible occurrence of an event |
| EventLaws.DisplayedStartResolvesIff | webcaldav/caldav_client.py:864-883 | a displayed start finds its override iff it is no other RECURRENCE-ID and no earlier override is shown there |
| EventLaws.BothNamesResolve | webcaldav/caldav_client.py:850-883 | on unambiguous resources both names of every visible occurrence resolve to its slot |
| EventLaws.ResolveCanMiss | webcaldav/caldav_client.py:870-882 | a visible slot of a well-formed resource can resolve to another occurrence |
| EventLaws.RepeatedThisIsStableIff | webcaldav/caldav_client.py:797-839 | repeating a this edit gives the same resource iff the request resolves to the same slot |
| EventLaws.EditedOccurrenceIsFoundIff | webcaldav/caldav_client.py:850-883 | after a this edit the slot finds it always, its new start iff no other override owns that time |
| EventLaws.DeleteThisRemovesIff | webcaldav/caldav_client.py:1522-1523 | deleting this removes exactly its occurrence iff it has no override |
| EventLaws.DeleteThisByNameIff | webcaldav/caldav_client.py:1519-1523 | deleting this under either name of an occurrence removes exactly it iff it has no override |
| EventLaws.DeleteFutureKeepsEarlier | webcaldav/caldav_client.py:1524-1531 | deleting thisfuture leaves exactly the earlier occurrences as shown, and no orphan override |
| EventLaws.DeleteFutureByNameIff | webcaldav/caldav_client.py:1519-1531 | deleting thisfuture at a time x cuts at an occurrence's slot iff x is not after the slot and nothing is visible from x up to it |
| MoveRuns.StepKeepsInvariant | webcaldav/caldav_client.py:1269-1380 | every edit of an event or task and every status change keeps the store well-formed: distinct RECURRENCE-IDs on own slots, not excluded, own uid |
| MoveRuns.StepTracks | webcaldav/caldav_client.py:1892-2014 | every slot of an edited event or task is carried to a slot with the same visibility and exclusion |
| MoveRuns.StepInventsNothing | webcaldav/caldav_client.py:1269-1380 | every occurrence visible after a step was carried from a visible one |
| MoveRuns.RunTracks | webcaldav/caldav_client.py:1269-1380 | over any run of edits of events and tasks and status changes the store stays well-formed and every slot keeps its visibility and exclusion where it is carried |
| MoveRuns.RunConserves | webcaldav/caldav_client.py:1892-2180 | over any such run on finite series the number of visible occurrences across all resources is constant |
| MoveRuns.DeletedStaysDeleted | webcaldav/caldav_client.py:683-694 | a deleted plain occurrence of an event or task stays hidden through any later run |
| MoveRuns.DeletionsRemoveWhatTheyName | webcaldav/caldav_client.py:2074-2088 | across the store, deleting this removes exactly its plain occurrence, deleting thisfuture exactly those of the series from the pivot on, also when that deletes the resource, for events and tasks |
| MoveRuns.ActRemovesNamed | webcaldav/caldav_client.py:1496-1537 | an edit, status change or deletion leaves the store well-formed and takes away as many visible occurrences as it names for deletion, a deletion exactly those |
| MoveRuns.RunLosesWhatItNames | webcaldav/caldav_client.py:1269-1537 | over any run of edits, status changes and deletions the visible occurrences left number those before less what the deletions named |
| Counterexamples.DeletingLeavesOverride | webcaldav/caldav_client.py:1522-1523 | a moved occurrence is still visible after it was deleted |
| Counterexamples.DeletingFutureKeepsMoved | webcaldav/caldav_client.py:1519-1531 | deleting thisfuture at the time an occurrence was moved to leaves it |
| Counterexamples.PivotlessEditOrphans | webcaldav/caldav_client.py:1263-1275 | a whole-series edit naming no occurrence orphans an override |
| Counterexamples.OffGridSplitGains | webcaldav/caldav_client.py:746-756 | three slots split off the grid become four |
| Counterexamples.ResentCountGains | webcaldav/static/app.js:3030-3031 | three slots split with the rule sent back unchanged become four |
| Counterexamples.TimeResetLosesDue | webcaldav/caldav_client.py:941-948 | a time reset against a series with only a due date drops the override's due date |
| Counterexamples.LaterDueIsDropped | webcaldav/caldav_client.py:1897-1902 | a later due date asked for with scope all is not kept |
| Counterexamples.MasterShowsThrough | webcaldav/caldav_client.py:2160-2178 | a reopened occurrence still shows as done |
| Counterexamples.UncompletingLosesTitle | webcaldav/caldav_client.py:2166-2169 | un-completing a renamed occurrence shows the series title again |
| Counterexamples.AddedStartRevivesDeleted | webcaldav/caldav_client.py:1962-2014 | a start added to a series with due dates only brings a deleted occurrence back |
| Counterexamples.CompletingDropsPriority | webcaldav/caldav_client.py:2172-2178 | completing an occurrence takes its priority away |
| Tasks.TaskCalendar.SetTaskStatus | webcaldav/caldav_client.py:2116-2180 | the new store and outcome of a status change, recurring or not |
| Tasks.TaskCalendar.MarkOccurrence | webcaldav/caldav_client.py:2149-2180 | an override is marked in place or dropped if unmoved and reopened; completing a plain occurrence detaches it |
| Tasks.TaskCalendar.UpdateTask | webcaldav/caldav_client.py:1857-2016 | the new store and outcome of every scope of a task edit, priority included |
| Tasks.TaskCalendar.MoveTask | webcaldav/caldav_client.py:1892-1923 | scope all of a task: start and due both move by what the anchor moved; fields, alarms and priority are set |
| Tasks.TaskCalendar.DetachTask | webcaldav/caldav_client.py:1929-1956 | scope this of a task: the override is rebuilt, completion carried over |
| Tasks.TaskCalendar.TaskFuture | webcaldav/caldav_client.py:1958-2014 | scope thisfuture of a task, anchored on start or due, with the priority of the request |
| Tasks.TaskCalendar.DeleteTask | webcaldav/caldav_client.py:2052-2091 | the new store and the outcome of every deletion of a task |
| RequestLaws.TaskUpdateOutcomes | webcaldav/caldav_client.py:1874-1927 | each refusal of a task update has exactly one cause and changes nothing; a request touches only its resource and, for a split, a fresh one |
| RequestLaws.PlainTaskUpdateTakes | webcaldav/caldav_client.py:1889-1923 | an edit of a plain task, or one naming no occurrence, is saved under any scope, dated or not; a new rule needs a date |
| RequestLaws.AllTaskUpdateTakes | webcaldav/caldav_client.py:1895-1923 | scope all of a task moves start and due by what the anchor moved and takes every field |
| RequestLaws.ThisTaskUpdateTakes | webcaldav/caldav_client.py:1929-1956 | scope this of a task stores one override with the fields of the edit and the completion carried over |
| RequestLaws.SplitTaskUpdateTakes | webcaldav/caldav_client.py:1988-2014 | scope thisfuture of a task leaves the earlier part and stores the rest, with the edit and not done, under the fresh uid |
| RequestLaws.FirstTaskUpdateTakes | webcaldav/caldav_client.py:1967-1987 | at or before the first slot the task is rewritten in place |
| RequestLaws.PlainStatusTakes | webcaldav/caldav_client.py:2137-2143 | a status change of a plain task sets its status, percentage and time of completion and nothing else; why one is refused |
| RequestLaws.StatusTakes | webcaldav/caldav_client.py:2145-2180 | on a named occurrence it marks the override, keeping all its other properties, drops it, or detaches one with the span and title of the occurrence |
| RequestLaws.CarriedCompletion | webcaldav/caldav_client.py:1943-1953 | a this edit carries completion over with its time, or stamps it, and carries nothing else |
| TaskLaws.StatusKeepsTimes | webcaldav/caldav_client.py:2160-2178 | no status change alters the displayed start and due of any occurrence |
| TaskLaws.DoneIff | webcaldav/caldav_client.py:1578-1585 | a task is done iff its status says so in any letter case, it has a time of completion, or it is 100 percent complete |
| TaskLaws.CompletingKeepsTexts | webcaldav/caldav_client.py:2170-2178 | completing alters no displayed text |
| TaskLaws.UncompletingKeepsTextsIff | webcaldav/caldav_client.py:2160-2171 | un-completing keeps the displayed texts iff the occurrence was moved, never detached, or shows the texts of the series |
| TaskLaws.StatusTakesEffectIff | webcaldav/caldav_client.py:2160-2178 | a status change takes effect iff it completes, the master is not done, or the occurrence was moved |
| TaskLaws.StatusKeepsWellFormed | webcaldav/caldav_client.py:2145-2180 | status changes keep overrides distinct and on visible slots |
| TaskLaws.MoveKeepsCompletion | webcaldav/caldav_client.py:1929-1956 | a this move sets the span of its slot and keeps completion, at its own slot iff it was overridden or the master is not done |
| TaskLaws.MoveKeepsCompletionTime | webcaldav/caldav_client.py:1929-1950 | a moved occurrence keeps its completion time |
| TaskLaws.OpChangesOneOccurrence | webcaldav/caldav_client.py:1929-2180 | a toggle or this move changes the occurrence it names as if it were alone, and no other, whatever the master's status |
| TaskLaws.RunIsReplay | webcaldav/caldav_client.py:1929-2180 | over any run of toggles and this moves, detachment, span and completion of an occurrence are the replay of the requests that named it |
| TaskLaws.TogglesAndMovesAreIndependent | webcaldav/caldav_client.py:2145-2180 | its span is that of the last move and, unless the master is itself done, its completion that of the last toggle |
| TaskLaws.SeriesEditsShowTexts | webcaldav/caldav_client.py:1906 | every edit of a task series shows its title, location and description wherever no override stands |
| TaskLaws.SeriesEditsKeepOverrides | webcaldav/caldav_client.py:1903-1904 | an override that is not reset goes on showing what it did |
| TaskLaws.ThisShowsTexts | webcaldav/caldav_client.py:1950-1953 | scope this shows the texts of the edit at its slot, those of the series for an empty location or description, and changes no other occurrence |
| TaskLaws.SeriesEditsKeepCompletion | webcaldav/caldav_client.py:1892-2014 | edits of a series leave overrides as done as they were; a spun-off series is not done |
| TaskLaws.SeriesEditsShowPriority | webcaldav/caldav_client.py:1851-1854 | scopes all and thisfuture show the requested priority wherever no override stands |
| TaskLaws.DetachingKeepsPriorityIff | webcaldav/caldav_client.py:1950-1953 | scope this shows the requested priority iff it is none; completing a plain occurrence keeps its priority iff it has none |
| TaskLaws.TaskAllCommutes | webcaldav/caldav_client.py:1892-1913 | scope all of a task moves every slot and exclusion, whatever is edited, and keeps overrides where displayed |
| TaskLaws.TaskAllShowsRequestIff | webcaldav/caldav_client.py:1897-1902 | a plain occurrence so edited shows the requested span iff the span has the series' properties and length |
| TaskLaws.TaskAllKeepsWellFormedIff | webcaldav/caldav_client.py:1903-1913 | scope all of a task keeps overrides on slots, with a new rule iff they meet its grid |
| TaskLaws.NewRuleTaskAll | webcaldav/caldav_client.py:1909-1911 | scope all of a task with a new rule has exactly the new grid from the moved anchor; exclusions and overrides move along |
| TaskLaws.PivotlessTaskEditShowsRequest | webcaldav/caldav_client.py:1893-1911 | an edit naming no occurrence puts the series on the grid of the rule in force from its date on, with the requested span |
| TaskLaws.PivotlessTaskEditKeepsWellFormedIff | webcaldav/caldav_client.py:1893-1911 | and keeps overrides on slots iff it is dated and they meet that grid |
| TaskLaws.TaskSplitDivides | webcaldav/caldav_client.py:1988-2014 | when the new series starts at the time the shift was measured to, scope thisfuture divides slots, exclusions and occurrences at the pivot |
| TaskLaws.TaskSplitIsRightIff | webcaldav/caldav_client.py:1964-1965 | the spun-off slots are the later ones moved iff it does |
| TaskLaws.TaskSplitKeepsWellFormedIff | webcaldav/caldav_client.py:1988-2014 | the capped part stays well-formed, the new one iff it is dated and the migrated overrides meet its grid |
| TaskLaws.NewRuleTaskSplit | webcaldav/caldav_client.py:1966-2013 | with a new rule the capped task keeps the earlier slots and the new one has the grid of the rule from its own date, with as many slots as the rule counts |
| TaskLaws.TaskFirstMovesEverySlot | webcaldav/caldav_client.py:1967-1987 | under the same condition scope thisfuture at a task's first slot moves every slot and exclusion |
| TaskLaws.TaskFirstIsRightIff | webcaldav/caldav_client.py:1967-1968 | it moves the slots by the measured shift iff the new series starts at the time the shift was measured to |
| TaskLaws.TaskFirstKeepsWellFormedIff | webcaldav/caldav_client.py:1967-1987 | rewritten in place it stays well-formed iff it is dated and the overrides other than the pivot's meet its grid |
| TaskLaws.TaskFirstKeepsWellFormed | webcaldav/caldav_client.py:1967-1987 | which holds without a new rule when the series starts at the time the shift was measured to |
| Fetch.ScanOverrides | webcaldav/caldav_client.py:1117-1127 | the first pass collects exactly the (uid, RECURRENCE-ID) pairs of the response |
| Fetch.FromCalendar | webcaldav/caldav_client.py:1729-1745 | the second pass for events and tasks keeps overrides and plain occurrences not looked up at an override, in order |
| Fetch.KeepShown | webcaldav/caldav_client.py:1131-1146 | within one resource, overrides and uncovered plain occurrences are kept in order |
| Fetch.OneEntryPerSlotIff | webcaldav/caldav_client.py:1113-1116 | whatever copies and order are served, each slot comes out once, as the override if there is one, iff exactly the covered plain occurrences are suppressed |
| Fetch.KeptIff | webcaldav/caldav_client.py:1131-1138 | an entry is kept iff it is dated and an override, or looked up at no override of its uid |
| Fetch.FetchShowsSeriesIff | webcaldav/caldav_client.py:1736-1738 | of a well-formed series, among any other resources, fetching shows exactly the occurrences reported, each once, iff no plain one is looked up at a slot that fares differently from its own |
| Fetch.FetchShowsSeries | webcaldav/caldav_client.py:1128-1147 | events, and tasks unless they have a start and another due date, come out right always |
| Fetch.EntryShowsExpansion | webcaldav/caldav_client.py:1052-1094 | what is shown for an entry is what the expansion shows at its slot |
| Fetch.DetachedTaskHidesDayBefore | webcaldav/caldav_client.py:1736-1738 | a detached occurrence can hide the one of the day before |
| Fetch.ExpansionStyleIsIrrelevant | webcaldav/caldav_client.py:1113-1116 | a response reordered and extended by any number of covered plain copies shows the same entries |
| Reminders.Deltas | webcaldav/routers/events.py:257-284 | rows are encoded in order, each distinct trigger once |
| Reminders.TriggerRoundTripIff | webcaldav/caldav_client.py:335-371 | encoding a decoded trigger restores it iff its offset is whole minutes, timed or all-day, either sign |
| Reminders.RowRoundTrip | webcaldav/routers/events.py:257-284 | decoding an encoded row gives a normal row of the same trigger that validation still accepts |
| Reminders.NormalFormIsUnique | webcaldav/caldav_client.py:335-371 | a trigger has one normal row |
| Reminders.NormalIsSmallest | webcaldav/caldav_client.py:335-346 | the row shown uses the largest unit: no row of the same trigger has a smaller value |
| Reminders.RoundsToNearest | webcaldav/caldav_client.py:335-346 | seconds are rounded to within half a minute, to an even count at a tie |
| Reminders.ReopenedRowIsValidIff | webcaldav/routers/events.py:195 | the row read from a trigger is acceptable iff its magnitude fits a unit that divides it, which for whole minutes is iff any acceptable row stands for it |
| Reminders.LongAlarmIsDropped | webcaldav/static/app.js:1858-1859 | 10001 minutes do not fit |
| Decimal.ClockRoundTrip | webcaldav/caldav_client.py:361 | a printed clock time matches the request pattern and reads back |
| Decimal.ClockTextIff | webcaldav/routers/events.py:191 | the request pattern accepts the printed clock times and nothing else |
| Decimal.ParsesIff | webcaldav/caldav_client.py:238 | exactly an optional sign with digits is a numeral, and it reads as its value |
| Alarms.Apply | webcaldav/caldav_client.py:405-435 | the loops remove editable alarms and append one per trigger |
| Alarms.RemoveEditable | webcaldav/caldav_client.py:424-426 | removing one by one leaves exactly the alarms outside the editable model, in order |
| Alarms.ApplyRemovesIff | webcaldav/caldav_client.py:315-322 | an apply removes exactly the alarms with a relative trigger whose action is not EMAIL in any letter case, counted with multiplicity |
| Alarms.WrittenAlarmsAre | webcaldav/caldav_client.py:427-435 | what is added is one DISPLAY alarm per trigger, in order after what is kept, RELATED to the end only where there is one |
| Alarms.ReadAsIff | webcaldav/caldav_client.py:374-402 | how one subcomponent is read, by its own trigger, RELATED and action |
| Alarms.ReadingsAfterApply | webcaldav/caldav_client.py:405-435 | the alarms after an apply are read as those outside the editable model, then one trigger each, END only with an end |
| Alarms.ReopeningCanMerge | webcaldav/caldav_client.py:427-435 | two distinct triggers can become equal alarms |
| Alarms.ApplyKeepsUntouchable | webcaldav/caldav_client.py:405-435 | alarms outside the editable model survive in order |
| Alarms.ApplyForgetsEarlierLists | webcaldav/caldav_client.py:405-435 | applying twice, or after another list, equals applying once |
| Alarms.DisplayAlarmIsEditable | webcaldav/caldav_client.py:294-322 | a written alarm is read as its trigger, END becoming START iff there is no end |
| Alarms.Extract | webcaldav/caldav_client.py:374-402 | the loop yields one entry per readable alarm |
| Alarms.ExtractAfterApply | webcaldav/caldav_client.py:374-435 | reading back gives the earlier read-only reminders and one row per trigger |
| Alarms.ReopeningKeepsTriggersIff | webcaldav/static/app.js:1854-1871 | whatever alarms a component has, saving it untouched gives back its triggers iff they are whole minutes of acceptable magnitude, distinct, and none needs a missing end |
| Alarms.ReopeningIsStableIff | webcaldav/caldav_client.py:374-435 | saving a component this program wrote untouched keeps every alarm iff its triggers are acceptable whole minutes and no two coincide |
| Alarms.ReopeningIsStableWithEnd | webcaldav/routers/events.py:257-284 | with an end, whatever the editor sends is stable |
| RuleCodec.StoredRuleRoundTrip | webcaldav/caldav_client.py:224-253 | building the structured form of a built rule gives the built rule |
| RuleCodec.StructIsRequestWithDefaults | webcaldav/caldav_client.py:224-253 | a stored rule reads back as the request with its defaults: interval 1, derived ordinal, no zero count, COUNT over UNTIL |
| RuleCodec.MonthlyRulesNameADay | webcaldav/caldav_client.py:704-729 | a rule is stored iff its frequency is one of five; a monthly one names a weekday or else a day of the month, others neither |
| RuleCodec.ByDayNamesStart | webcaldav/caldav_client.py:721-726 | a rule by weekday stores the ordinal asked for, or the start's, and the code of the start's weekday |
| RuleCodec.MonthDayExistsInEveryMonth | webcaldav/caldav_client.py:704-729 | a day-of-month rule occurs in every month, on the start's day iff every month has it, else on the last day |
| RuleCodec.DerivedOrdinalIsTheStarts | webcaldav/caldav_client.py:724-725 | the derived ordinal is the start's position among the equal weekdays of its month |
| RuleCodec.CountWins | webcaldav/caldav_client.py:732-743 | a stored rule has at most one bound, COUNT if both were sent |
| RuleCodec.StructReadsAnyRule | webcaldav/caldav_client.py:224-253 | the structured form of any stored rule has at most one bound and, iff monthly, a mode: by weekday iff it has a BYDAY |
| RuleCodec.FormSends | webcaldav/static/app.js:1936-1952 | the form sends a positive interval and count, no ordinal, and the end of the day of an UNTIL only without a count |
| RuleCodec.OrdinalIsRead | webcaldav/caldav_client.py:234-241 | signed ordinals printed into BYDAY are read back |
| RuleCodec.FormRoundTripIff | webcaldav/static/app.js:1936-1969 | the recurrence form keeps a stored rule iff its ordinal is the start's own and its bound is one the form expresses |
| RuleCodec.FormChangesLastWeekday | webcaldav/static/app.js:1942-1945 | the form changes a last-weekday rule |
| RuleCodec.FormRoundsUntil | webcaldav/static/app.js:1948-1951 | on fixed-step rules the form rounds UNTIL to the end of its day and nothing else |
| Agenda.Loader.LoadMore | webcaldav/static/app.js:3850-3944 | the new cursor, counter, seen keys and rows of one load that succeeds or fails, and the guards that refuse it |
| Agenda.AgendaOrder | webcaldav/static/app.js:3843-3848 | the order is total and transitive; sorted rows go by start, all-day first, then by title |
| Agenda.SortSorts | webcaldav/static/app.js:3843-3848 | sorting puts the rows of a load in agenda order |
| Agenda.PagingIsOneQuery | webcaldav/static/app.js:3850-3944 | after any loads, failures and retries the rows answer one query from the first cursor to the current one: complete, each key once, sorted throughout |
| Agenda.AnswerIsTheQuery | webcaldav/static/app.js:3898-3910 | with unambiguous keys the rows are exactly the wanted items of that range |
| Agenda.Loader.AgendaReset | webcaldav/static/app.js:3805-3828 | cursor, counter, seen keys, rows, search bound and the guard against overlaps start over |
| Agenda.LoadKeepsAnswerIff | webcaldav/static/app.js:3898-3928 | appending the new rows of a window keeps the rows the answer to one query iff the window extends them: nothing wanted is skipped, and nothing outside is shown |
| Agenda.FinishKeepsOrderIff | webcaldav/static/app.js:3850-3944 | whatever is in flight, a load that comes in keeps the agenda in order iff its window extends what is there |
| Agenda.StaleLoadIsHarmlessIff | webcaldav/static/app.js:4272-4276 | a load overtaken by a reset is harmless iff nothing wanted starts between the reset and its window |
| Agenda.HarmlessRunIsOneQuery | webcaldav/static/app.js:3850-3944 | over any run of overlapping calls, responses, failures, retries and resets whose loads all extend what is there, the rows answer one query since the last reset |
| Agenda.QuietActIsHarmless | webcaldav/static/app.js:3850-3851 | with responses outstanding, unless a reset overtakes it, at most one load is in flight, for the window at the cursor, and it extends what is there |
| Agenda.QuietRunIsOneQuery | webcaldav/static/app.js:3850-3944 | so every run in which no reset overtakes a load has the rows answer one query |
| Agenda.StaleLoadBreaksOrder | webcaldav/static/app.js:4272-4278 | a reset that overtakes a load can leave rows out of order |
| Agenda.EmptyRunsAreEmpty | webcaldav/static/app.js:3912-3921 | the loader stops by itself only after six windows that hold nothing |
| Agenda.LoadingStops | webcaldav/static/app.js:3912-3928 | with nothing after the first n windows it stops within n + 6 loads |
| Agenda.BoundedLoadsOnce | webcaldav/static/app.js:3929-3936 | a bounded search or a slice is loaded by one request that ends at the bound |
| Agenda.RetryResumes | webcaldav/static/app.js:4255-4263 | a failed load that is retried goes on where it was |
| Notifications.Notifier.ScheduleTriggers | webcaldav/static/app.js:5220-5234 | all timers are replaced |
| Notifications.Notifier.FireNotification | webcaldav/static/app.js:5236-5250 | a fired timer shows its tag unless remembered, then prunes |
| Notifications.Notifier.PersistFiredSet | webcaldav/static/app.js:5153-5165 | keeps exactly the tags whose instant is at most two days old |
| Notifications.BuildTriggers | webcaldav/static/app.js:5177-5218 | the start and each reminder of each item, those ahead |
| Notifications.CollectReminders | webcaldav/static/app.js:5199-5215 | one trigger per reminder that has an instant |
| Notifications.TriggersAreCalledFor | webcaldav/static/app.js:5177-5215 | the triggers are exactly the starts of the items that belong to a calendar and the instants of each of their reminders |
| Notifications.ReminderFiresIff | webcaldav/static/app.js:5199-5214 | a read-only reminder fires at its instant, an editable one iff its anchor, and on an all-day item its clock time, is there |
| Notifications.FiresAtAlarmOffsetIff | webcaldav/static/app.js:5199-5214 | the browser fires a stored alarm at its anchor plus its offset iff the offset is whole minutes |
| Notifications.TagsAreDistinct | webcaldav/static/app.js:5225-5226 | tags are equal iff uid and instant are |
| Notifications.ResyncSchedules | webcaldav/static/app.js:5220-5234 | exactly the alerts that the items call for, within the timer ceiling and not yet shown, get a timer |
| Notifications.EachTagShownOnce | webcaldav/static/app.js:5236-5250 | over any run with timers at most two days late each tag is shown at most once |
| Notifications.RememberedIff | webcaldav/static/app.js:5153-5165 | a tag is remembered as long as everything shown is shown at most two days after its instant |
| Notifications.SecondTimerRepeatsIff | webcaldav/static/app.js:5236-5250 | of two timers of a tag, with any run between them, the second repeats it iff the first or anything shown in between came more than two days late |
| Notifications.DoubledTimerRepeatsIff | webcaldav/static/app.js:5236-5250 | of two pending timers fired in a row the second repeats the tag iff the first is more than two days late |
| Notifications.TooLateShowsTwice | webcaldav/static/app.js:5153-5165 | a later timer can show a tag twice |
| RateLimit.LoginRateLimiter.Prune | webcaldav/ratelimit.py:29-37 | keeps exactly the attempts within the window, dropping empty lists |
| RateLimit.LoginRateLimiter.Check | webcaldav/ratelimit.py:39-49 | the answer and the pruned table |
| RateLimit.LoginRateLimiter.Record | webcaldav/ratelimit.py:51-57 | appends the attempt to the pruned list |
| RateLimit.LoginRateLimiter.Reset | webcaldav/ratelimit.py:59-61 | forgets the attempts of one IP only |
| RateLimit.LoginRateLimiter.Login | webcaldav/routers/auth.py:55-67 | an attempt is recorded, at a second reading of the clock, iff it is admitted |
| RateLimit.AdmittedIff | webcaldav/ratelimit.py:29-49 | despite pruning, admission is decided by the full history since the last reset |
| RateLimit.AdmittedByGap | webcaldav/ratelimit.py:39-49 | that is, iff fewer than most attempts were admitted or the one most before is at least the window ago |
| RateLimit.OffAdmitsEveryone | webcaldav/ratelimit.py:41-42 | a limit of zero or less admits everyone and stores nothing |
| RateLimit.PruneKeepsWindow | webcaldav/ratelimit.py:29-37 | pruning keeps exactly the attempts within the window, drops an address without any, and leaves others alone |
| RateLimit.NoEmptyLists | webcaldav/ratelimit.py:33-36 | the table holds no empty lists |
| RateLimit.AttemptsSpanWindow | webcaldav/ratelimit.py:6-11 | any most + 1 admitted attempts between resets span at least the window |
| RateLimit.RetryAfterIsSharp | webcaldav/ratelimit.py:48-49 | retry-after exceeds the true wait by at most a second, and a check then admits |
| Sessions.SessionStore.Get | webcaldav/session.py:65-76 | returns and refreshes a live session, deletes an overdue one |
| Sessions.GetSucceedsIff | webcaldav/session.py:41-76 | get returns a held session, seen now, iff its own timeout, or else the default, has not passed, and removes it if not |
| Sessions.LookSucceedsIff | webcaldav/session.py:78-89 | a look returns it unchanged under the same condition |
| Sessions.SessionStore.Peek | webcaldav/session.py:78-89 | as get, without refreshing |
| Sessions.SessionStore.GetStatus | webcaldav/session.py:91-110 | as peek, reporting the idle state |
| Sessions.StatusReportsTimeout | webcaldav/session.py:97-110 | a status reports the timeout in force, or that there is none |
| Sessions.SessionStore.Create | webcaldav/session.py:47-63 | adds a session seen now |
| Sessions.SessionStore.Update | webcaldav/session.py:112-117 | sets any fields of an existing session, one after the other |
| Sessions.LastSettingWins | webcaldav/session.py:112-117 | an update leaves each field as last set |
| Sessions.OtherFieldsStay | webcaldav/session.py:112-117 | and the fields it does not name as they were |
| Sessions.SessionStore.Delete | webcaldav/session.py:119-121 | removes a session |
| Sessions.RemainingIsWholeSecondsLeft | webcaldav/session.py:105-110 | the seconds reported are the whole seconds left |
| Sessions.LazyExpiryRefinesEager | webcaldav/session.py:65-121 | over runs whose updates rescue no overdue session, get answers as if only creates, timely gets, updates and deletes mattered |
| Sessions.LooksAreInvisible | webcaldav/session.py:78-110 | over such runs adding or removing peek and status calls changes no later get |
| Sessions.LookIsInvisibleIff | webcaldav/session.py:78-117 | a look before an update is invisible to every later get iff the update does not rescue an overdue session |
| Sessions.AnyUpdateIsSafeIff | webcaldav/session.py:112-117 | before arbitrary updates it is invisible iff the session is not overdue |
| Sessions.UpdateAfterGetIsGuarded | webcaldav/deps.py:42-51 | an update that follows a successful get rescues nothing unless the session runs out in between, whatever other requests do |
| Sessions.LooksMatterBeforeRescue | webcaldav/session.py:112-117 | an update without a get can make a look visible |

## Left out

- Time zones, daylight saving and ISO text: one integer timeline, on which a day is 86400 seconds; an edit does not turn an all-day series into a timed one.
- Monthly and yearly grids in the movement laws: such rules do not move with their start; they appear in `RuleCodec` only.
- Identity of component objects: overrides are values inside the resource's list, so removal is by equality, as `list.remove` does it, and aliasing is not captured.
- Resources without a master component, where the program takes the first override for one.
- SEQUENCE, DTSTAMP and LAST-MODIFIED properties, and the text of read-only reminders.
- The `time_too` form of moving an override: every caller keeps the override's own time.
- MoveRuns.RunTracks: covers edits that bring no new rule and name a visible occurrence, and of tasks those that keep their anchor; the other edits have the exact conditions listed above.
- Undated tasks, which are fetched by a search of their own and appended, and recovery of reminders that expansion strips.
- Two agenda entries for one instant written in different zones, which the program keys apart.
- Agenda items whose titles the collation order cannot rank; the order of titles is a parameter.
- Number syntax beyond an optional sign and ASCII digits, and non-ASCII letter case.
- Floating-point rounding of elapsed seconds in throttle and sessions; instants are whole microseconds.
- Concurrent requests against one resource; the throttle's check and record have no await between them and each session store method holds a lock.
- CalDAV and HTTP transport, database, cryptography, sharing, journals, holidays, translation and the rest of the user interface.
