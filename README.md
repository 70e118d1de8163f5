# CareShift single-shift planner, modelled in Dafny

CareShift plans one nurse's shift. Each clinical order (medication,
procedure, lab, assessment) gets a rules-based priority score. The score
combines the patient's acuity, the order type, how close the order is to
its due time, a STAT bonus and a PRN penalty. Orders are ranked by score,
and an earlier due time breaks ties. One greedy pass then lays the ranked
orders end to end on the shift timeline. The pass starts at the later of
the shift start and the current time. It stops with a single note when
the shift is full or when the next task would run past the shift end. A
small in-memory store keeps the shift window, patients and orders
between passes. When requests are handled one at a time, its handlers
keep three things true: patient ids are unique, order ids are unique,
and every order names a stored patient.

The project is six modules, one file each:

- `prelude.dfy` (`Prelude`): `Option`, `Result`, list filtering (Python's
  filtering comprehension) and pairwise distinctness (`len(ids) ==
  len(set(ids))`).
- `clinical.dfy` (`Clinical`): the enums and records of the clinical
  schema, and the patient lookup `{p.id: p for p in patients}`.
- `scheduler.dfy` (`Scheduler`): the weights, urgency and score, and the
  ranking as a stable insertion sort. `ScoreOrders` is the scoring loop as
  a method. `Pack` is the packing sweep as a function, and
  `PlaceOnTimeline` is its cursor loop. `GenerateSchedule` is the whole
  pass, proved equal to the function `Schedule`.
- `core_state.dfy` (`CoreState`): the `ShiftContext` class with its three
  mutable fields, its lookups and its reset, plus the store invariant.
- `state_routes.dfy` (`StateRoutes`): the mutation handlers as methods on
  the context. Each returns `Ok` or the error the endpoint raises, and
  keeps the store invariant.
- `demo.dfy` (`Demo`): the two-order sample request of the demo payload,
  worked through to its schedule.

Conventions:

- Instants are whole seconds on one UTC time line.
- A task of `d` minutes ends `d * 60` seconds after it starts.
- Weights, urgency and scores are exact `real`s.
- The clock read in `generate_schedule` becomes the parameter `now`.
  The response's `generatedAt` is that same `now`.

Where the scheduler and the schema disagree, the model follows the
scheduler. `app/services/scheduler.py:39` imports a `ScoreBreakdown`
record that `app/schemas/clinical.py` does not declare. The model's
`ScoreBreakdown` carries the six fields built at
`app/services/scheduler.py:190-197`. The schema's `ScheduledTask`
(`app/schemas/clinical.py:50-56`) has a `rationale` field. The scheduler
instead fills `patient_display_name`, `summary` and `score_breakdown`
(`app/services/scheduler.py:307-317`). The model's `ScheduledTask` has
`patientDisplayName` and `scoreBreakdown`. The summary string is left
out (see below). As written, the program cannot run these lines. The
import at `app/services/scheduler.py:31-40` fails because the schema
declares no `ScoreBreakdown`. The `ScheduledTask(...)` call at
`app/services/scheduler.py:308` omits the schema's required `rationale`
field. The model describes the evidently intended behaviour: the
scheduler's own fields, with the schema's field bounds and defaults.

## Model

| member | source | states |
|---|---|---|
| Prelude.Filter | app/api/routes/state.py:119-120 | the kept list is no longer than the input, and a value is in it exactly when it is in the input and passes the test |
| Prelude.FilterLength | app/api/routes/state.py:161-164 | filtering keeps the length exactly when every element passes, and then returns the list unchanged |
| Prelude.DistinctIffNoCollapse | app/api/routes/state.py:106-107 | a list has as many distinct values as elements exactly when no value repeats |
| Clinical.ParseAcuity | app/schemas/clinical.py:8-12 | only the four acuity strings parse, and each parses to the level with that value |
| Clinical.ParseOrderType | app/schemas/clinical.py:15-19 | only the four order-type strings parse, and each parses to the type with that value |
| Clinical.ValuesRoundTrip | app/schemas/clinical.py:8-19 | each level's and each type's string value parses back to it |
| Clinical.NewOrder | app/schemas/clinical.py:22-30 | an order built without the optional fields carries the given id, patient, type, description and due time, lasts 10 minutes and is neither PRN nor STAT; every duration lies in [1, 240] by its type |
| Clinical.NewResponse | app/schemas/clinical.py:59-62 | a response built without notes has no notes |
| Clinical.PatientIndex | app/core/state.py:44-45 | the lookup's keys are exactly the patient ids, and each key maps to a listed patient with that id |
| Clinical.PatientIndexLastWins | app/core/state.py:44-45 | when ids repeat, the lookup holds the last patient with that id |
| Scheduler.AcuityWeight | app/services/scheduler.py:59-64 | the acuity multiplier is defined for every level and lies in [1.0, 2.2] |
| Scheduler.AcuityWeightIncreasing | app/services/scheduler.py:56-64 | a more severe level has a strictly larger multiplier |
| Scheduler.TypeWeight | app/services/scheduler.py:68-73 | the type multiplier is defined for every type and lies in [1.1, 1.4] |
| Scheduler.MinutesUntil | app/services/scheduler.py:90-99 | the minutes are zero or negative exactly when the order is due now or overdue; sixty times the minutes is the signed gap in seconds |
| Scheduler.Urgency | app/services/scheduler.py:102-127 | urgency lies in [3.0, 5.0] for an order due now or overdue, and in [0.2, 2.5) for a future order |
| Scheduler.UrgencyNonIncreasing | app/services/scheduler.py:117-127 | urgency never rises as the due time moves further away |
| Scheduler.OverdueOutranksFuture | app/services/scheduler.py:117-127 | any order due now or overdue is more urgent than any future order |
| Scheduler.PriorityScore | app/services/scheduler.py:165-175 | no contract of its own; the score formula, characterised by FlagsAreAdditive, HigherAcuityScoresHigher, SoonerDueNeverScoresLower and RankedScores |
| Scheduler.ScoreOrder | app/services/scheduler.py:159-197 | no contract of its own; one order's score and breakdown, characterised through ScoreAll and RankedScores |
| Scheduler.FlagsAreAdditive | app/services/scheduler.py:165-175 | STAT adds exactly 1.5 and PRN subtracts exactly 0.4, whatever the other factors are |
| Scheduler.HigherAcuityScoresHigher | app/services/scheduler.py:56-58 | with all else equal, higher acuity gives a strictly higher score |
| Scheduler.SoonerDueNeverScoresLower | app/services/scheduler.py:159-175 | with all else equal, an order due sooner never scores lower |
| Scheduler.ScoreAll | app/services/scheduler.py:150-206 | every scored entry is an input order with a known patient, scored by the formula, and there are no more entries than orders |
| Scheduler.ScoreAllIsRetained | app/services/scheduler.py:152-157 | the scored entries are exactly the orders with a known patient, in input order, so orders of unknown patients never appear |
| Scheduler.RankedAdjacent | app/services/scheduler.py:208-211 | in a ranked list each entry has a higher score than the next, or an equal score and a due time no later |
| Scheduler.Insert | app/services/scheduler.py:211 | inserting adds exactly the one entry, as a multiset |
| Scheduler.InsertRanked | app/services/scheduler.py:211 | inserting into a ranked list keeps it ranked |
| Scheduler.SortByPriority | app/services/scheduler.py:211 | sorting is a permutation of its input |
| Scheduler.SortByPriorityRanked | app/services/scheduler.py:208-211 | the sorted list is ranked by score descending, with an earlier due time first on ties |
| Scheduler.RankedFacts | app/services/scheduler.py:150-212 | the ranked list is sorted and a permutation of the scored entries; every entry is an input order with a known patient |
| Scheduler.RankedScores | app/services/scheduler.py:159-197 | each ranked score is acuity weight times type weight times urgency, plus 1.5 if STAT, minus 0.4 if PRN; the breakdown records the acuity, type, minutes, urgency and flags |
| Scheduler.ScoreOrders | app/services/scheduler.py:130-212 | the scoring loop returns the sorted scored list: ranked, no longer than the input, each entry an input order of a known patient, scored by the formula |
| Scheduler.PlaceTask | app/services/scheduler.py:303-318 | no contract of its own; one placed task, with the display-name fallback that PackNamesKnown proves unreachable |
| Scheduler.Pack | app/services/scheduler.py:279-321 | no contract of its own; the packing sweep, characterised by PackIsPrefix, PackTimeline, PackStops and PackNamesKnown |
| Scheduler.PackIsPrefix | app/services/scheduler.py:279-318 | the placed tasks are a prefix of the ranked list, in ranked order, carrying each entry's order, patient, score and breakdown |
| Scheduler.PackTimeline | app/services/scheduler.py:292-321 | the first task starts at the cursor; each task lasts its order's duration, the next starts where it ended, and all lie within the shift |
| Scheduler.PackStops | app/services/scheduler.py:279-301 | placing everything produces no note; stopping early produces exactly one note, saying the shift is full or that the next unplaced task would overrun |
| Scheduler.PackNamesKnown | app/services/scheduler.py:303-311 | when every ranked patient is known, each task carries its patient's display name, so the fallback name never appears |
| Scheduler.StartCursor | app/services/scheduler.py:257 | placement starts at the shift start or at now, whichever is later |
| Scheduler.Schedule | app/services/scheduler.py:215-327 | no contract of its own; the whole pass as a function, characterised by ScheduleInvalidWindow, ScheduleShiftEnded, ValidWindowNotes and ScheduleShape |
| Scheduler.ScheduleInvalidWindow | app/services/scheduler.py:262-269 | a window whose end is not after its start yields no tasks and exactly the invalid-window note |
| Scheduler.ScheduleShiftEnded | app/services/scheduler.py:257-277 | a valid window whose start cursor is at or past its end yields no tasks and exactly the already-ended note |
| Scheduler.ValidWindowNotes | app/services/scheduler.py:262-301 | a valid window ends with no note or with the already-ended, shift-full or would-exceed note, never the invalid-window note |
| Scheduler.ScheduleShape | app/services/scheduler.py:215-327 | every pass has at most one note; its tasks are a ranked prefix, contiguous from the start cursor, inside the shift, as long as their orders, and named after known patients |
| Scheduler.PlaceOnTimeline | app/services/scheduler.py:279-321 | the cursor loop with its early stops produces exactly the tasks and notes of the packing sweep |
| Scheduler.GenerateSchedule | app/services/scheduler.py:215-327 | the whole pass returns exactly the response the function `Schedule` describes, which the lemmas above characterise |
| CoreState.PatientIdList | app/api/routes/state.py:106 | the id list matches the patients position by position, and its values are the patient ids |
| CoreState.ShiftContext.constructor | app/core/state.py:40-42 | a new context has no shift and no patients or orders, and is consistent |
| CoreState.ShiftContext.PatientsById | app/core/state.py:44-45 | the lookup's keys are the stored patient ids, each mapped to a stored patient with that id |
| CoreState.ShiftContext.HasPatient | app/core/state.py:47-48 | an id is known exactly when some stored patient has it, which is exactly when it is a key of the lookup |
| CoreState.ShiftContext.Reset | app/core/state.py:67-73 | after a reset there is no shift and there are no patients or orders |
| StateRoutes.FilterKeepsUniqueOrderIds | app/api/routes/state.py:119-120 | removing orders from a list with unique ids, as set_patients and delete_order do, leaves the ids unique |
| StateRoutes.AppendKeepsUniqueOrderIds | app/api/routes/state.py:140-147 | appending an order whose id is not yet used keeps order ids unique |
| StateRoutes.StoredOrdersAreAllScored | app/services/scheduler.py:152-157 | when every order names a stored patient, scoring keeps every order, in input order |
| StateRoutes.StoredOrdersAreAllRanked | app/services/scheduler.py:152-157 | when every order names a stored patient, none is skipped: the ranked list holds every stored order |
| StateRoutes.ConsistentReplanPlacesAll | app/api/routes/state.py:183-196 | a replan of a consistent store that ends without a note has placed every stored order |
| StateRoutes.SetShift | app/api/routes/state.py:84-92 | a window whose end is not after its start is rejected with the shift unchanged; otherwise only the shift is set; patients and orders never change; consistency is kept |
| StateRoutes.SetPatients | app/api/routes/state.py:106-122 | duplicate ids are rejected with the store unchanged; otherwise the patients are replaced and exactly the orders of listed patients are kept, in their order; consistency is kept |
| StateRoutes.AddOrder | app/api/routes/state.py:134-148 | an unknown patient, then a taken id, are rejected with the store unchanged; otherwise the order is appended at the end; consistency is kept |
| StateRoutes.DeleteOrder | app/api/routes/state.py:160-168 | every order with the id is removed; not-found is reported exactly when no order had the id, and then the list is unchanged; consistency is kept |
| StateRoutes.Replan | app/api/routes/state.py:183-196 | no shift gives the shift-not-set error; otherwise the result is the pass over exactly the stored shift, patients and orders, and a consistent store never draws the invalid-window note |
| StateRoutes.ResetState | app/api/routes/state.py:64-74 | after a reset the store is empty and consistent |
| Demo.DemoIndex | app/api/routes/demo.py:60-63 | the sample patient lookup holds both sample patients |
| Demo.DemoScores | app/api/routes/demo.py:66-90 | the critical patient's STAT procedure outscores the low-acuity patient's routine medication |
| Demo.DemoRanking | app/api/routes/demo.py:66-90 | the ranked sample list puts the procedure first and the medication second |
| Demo.PackTwo | app/services/scheduler.py:279-321 | two entries that fit back to back are both placed, with no note |
| Demo.DemoSchedule | app/api/routes/demo.py:50-96 | the sample request, with now 10 minutes before the shift, schedules the procedure at the shift start for 20 minutes, then the medication for 10, with no notes |

## Left out

- Concurrency is not modelled. Each handler is modelled as running alone,
  with no other handler interleaved. In the source the handlers are plain
  functions that a web server may run on several threads at once over the
  shared store, without a lock. Two `add_order` calls with the same id, or
  an `add_order` racing a `set_patients`, could then break the store
  invariant; the model's invariant holds for requests handled one at a
  time.
- The HTTP layer is not modelled: routers, decorators, status codes and
  response models. Errors are `ApiError` values in a `Result` instead of
  raised exceptions.
- `get_state` and its timestamp are not modelled. It only reads the store
  and the wall clock.
- Clock reads are not modelled. `now` is a parameter of
  `GenerateSchedule` and `Replan`.
- Floating point is not modelled. Scores are exact reals, so IEEE-754
  rounding, and any ranking ties or inversions it could cause, are outside
  the model.
- Scheduler.ScoreOrders: the breakdown keeps the exact minutes and
  urgency. The source rounds them to one and two decimals, and this model
  does not.
- The human-readable `summary` string of a scored order and of a task is
  not modelled. It is f-string formatting, copied into every placed task
  for whoever reads the response; no computation in the core reads it.
- Scheduler.SortByPriority: the sort is stable like Python's `list.sort`,
  but no lemma states the stability; only sortedness and permutation are
  proved. The sort is a function, not a loop, because the source calls
  the library sort.
- The global `_CONTEXT` singleton is not modelled, and neither is
  `reset_context` rebinding it to a fresh object. The model has one
  `ShiftContext` object that `Reset` clears in place, so aliasing of the
  old store object is not captured.
- Pydantic validation is not modelled. The bounds it enforces appear as
  types: durations in [1, 240], and the closed enums. Timestamp parsing,
  time zones and sub-second precision are not modelled; instants are
  whole seconds.
- `app/core/config.py`, `app/api/router.py` and `app/api/routes/schedule.py`
  hold settings and wiring only. `demo.py` builds its sample request from
  the wall clock. Only that request's schedule is worked through, in
  `Demo`.
