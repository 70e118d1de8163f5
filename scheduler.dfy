/** The single-shift planner: a rules-based priority score per order, a
    ranking by score (earlier due time breaking ties), and one greedy pass
    that lays the ranked orders end to end on the shift timeline.

    The current time `now` is a parameter everywhere; scores are exact reals. */
module Scheduler {
  import opened Prelude
  import opened Clinical

  // ---------------------------------------------------------------------
  // Weights
  // ---------------------------------------------------------------------

  /** Acuity multiplier: higher acuity amplifies every other factor. */
  function AcuityWeight(a: AcuityLevel): (w: real)
    ensures 1.0 <= w <= 2.2
  {
    match a
    case Low => 1.0
    case Medium => 1.4
    case High => 1.8
    case Critical => 2.2
  }

  /** The acuity multiplier grows strictly with the severity order. */
  lemma AcuityWeightIncreasing(a: AcuityLevel, b: AcuityLevel)
    requires a.Rank() < b.Rank()
    ensures AcuityWeight(a) < AcuityWeight(b)
  {
  }

  /** Order-type multiplier. */
  function TypeWeight(t: OrderType): (w: real)
    ensures 1.1 <= w <= 1.4
  {
    match t
    case Medication => 1.4
    case Procedure => 1.3
    case Assessment => 1.2
    case Lab => 1.1
  }

  const StatBonus: real := 1.5
  const PrnPenalty: real := 0.4

  // ---------------------------------------------------------------------
  // Urgency
  // ---------------------------------------------------------------------

  /** Signed minutes from `now` until `dueAt`; zero or negative means due
      now or overdue. */
  function MinutesUntil(now: Instant, dueAt: Instant): (m: real)
    ensures m <= 0.0 <==> dueAt <= now
    ensures m * 60.0 == (dueAt - now) as real
  {
    (dueAt - now) as real / 60.0
  }

  /** Urgency factor of an order due in `minutesUntilDue` minutes. */
  function Urgency(minutesUntilDue: real): (u: real)
    ensures minutesUntilDue <= 0.0 ==> 3.0 <= u <= 5.0
    ensures minutesUntilDue > 0.0 ==> 0.2 <= u < 2.5
  {
    if minutesUntilDue <= 0.0 then
      var overdueMinutes := if minutesUntilDue < 0.0 then -minutesUntilDue else minutesUntilDue;
      3.0 + (if overdueMinutes / 30.0 <= 2.0 then overdueMinutes / 30.0 else 2.0)
    else
      var decayed := 2.5 - minutesUntilDue / 120.0;
      if 0.2 >= decayed then 0.2 else decayed
  }

  /** Urgency never rises as the due time moves further away. */
  lemma UrgencyNonIncreasing(m1: real, m2: real)
    requires m1 <= m2
    ensures Urgency(m2) <= Urgency(m1)
  {
  }

  /** Any overdue or due-now order is more urgent than any future order. */
  lemma OverdueOutranksFuture(m1: real, m2: real)
    requires m1 <= 0.0 < m2
    ensures Urgency(m1) > Urgency(m2)
  {
  }

  // ---------------------------------------------------------------------
  // Scoring
  // ---------------------------------------------------------------------

  /** The v1 score formula. */
  function PriorityScore(acuity: AcuityLevel, orderType: OrderType, urgency: real,
                         isStat: bool, isPrn: bool): real
  {
    AcuityWeight(acuity) * TypeWeight(orderType) * urgency
      + (if isStat then StatBonus else 0.0)
      - (if isPrn then PrnPenalty else 0.0)
  }

  /** STAT adds exactly the bonus and PRN subtracts exactly the penalty,
      whatever the other factors are. */
  lemma FlagsAreAdditive(acuity: AcuityLevel, orderType: OrderType, urgency: real, isStat: bool, isPrn: bool)
    ensures PriorityScore(acuity, orderType, urgency, true, isPrn)
            == PriorityScore(acuity, orderType, urgency, false, isPrn) + 1.5
    ensures PriorityScore(acuity, orderType, urgency, isStat, true)
            == PriorityScore(acuity, orderType, urgency, isStat, false) - 0.4
  {
  }

  /** With everything else fixed, a patient of higher acuity scores strictly
      higher (urgency is always positive). */
  lemma HigherAcuityScoresHigher(a: AcuityLevel, b: AcuityLevel, orderType: OrderType,
                                  minutesUntilDue: real, isStat: bool, isPrn: bool)
    requires a.Rank() < b.Rank()
    ensures PriorityScore(a, orderType, Urgency(minutesUntilDue), isStat, isPrn)
            < PriorityScore(b, orderType, Urgency(minutesUntilDue), isStat, isPrn)
  {
  }

  /** With everything else fixed, an order due sooner never scores lower. */
  lemma SoonerDueNeverScoresLower(acuity: AcuityLevel, orderType: OrderType,
                                   m1: real, m2: real, isStat: bool, isPrn: bool)
    requires m1 <= m2
    ensures PriorityScore(acuity, orderType, Urgency(m2), isStat, isPrn)
            <= PriorityScore(acuity, orderType, Urgency(m1), isStat, isPrn)
  {
  }

  /** An order with its score and the breakdown that explains it. */
  datatype ScoredOrder = ScoredOrder(order: Order, score: real, breakdown: ScoreBreakdown)

  /** Scores one order whose patient is `p`. */
  function ScoreOrder(now: Instant, p: Patient, o: Order): ScoredOrder
  {
    var mins := MinutesUntil(now, o.dueAt);
    var urgency := Urgency(mins);
    ScoredOrder(
      o,
      PriorityScore(p.acuity, o.orderType, urgency, o.isStat, o.isPrn),
      ScoreBreakdown(p.acuity.Value(), o.orderType.Value(), mins, urgency, o.isStat, o.isPrn))
  }

  /** Whether an order's patient is in the lookup. */
  function IsKnown(patientsById: map<string, Patient>): Order -> bool
  {
    (o: Order) => o.patientId in patientsById
  }

  /** The scored orders in input order, before sorting: orders of unknown
      patients are skipped. */
  function ScoreAll(now: Instant, patientsById: map<string, Patient>, orders: seq<Order>): (r: seq<ScoredOrder>)
    ensures |r| <= |orders|
    ensures forall k :: 0 <= k < |r| ==>
              && r[k].order in orders
              && r[k].order.patientId in patientsById
              && r[k] == ScoreOrder(now, patientsById[r[k].order.patientId], r[k].order)
  {
    if orders == [] then []
    else
      var n := |orders| - 1;
      var o := orders[n];
      assert forall x :: x in orders[..n] ==> x in orders;
      ScoreAll(now, patientsById, orders[..n])
        + (if o.patientId in patientsById then [ScoreOrder(now, patientsById[o.patientId], o)] else [])
  }

  /** The scored list holds exactly the orders with a known patient, in
      input order (each scored as `ScoreAll` states). */
  lemma {:induction false} ScoreAllIsRetained(now: Instant, patientsById: map<string, Patient>, orders: seq<Order>)
    ensures var kept := Filter(orders, IsKnown(patientsById));
            var r := ScoreAll(now, patientsById, orders);
            && |r| == |kept|
            && forall k :: 0 <= k < |r| ==> r[k].order == kept[k]
  {
    if orders != [] {
      var n := |orders| - 1;
      var o := orders[n];
      var known := IsKnown(patientsById);
      ScoreAllIsRetained(now, patientsById, orders[..n]);
      assert orders == orders[..n] + [o];
      FilterAppend(orders[..n], [o], known);
      assert Filter([o], known) == (if o.patientId in patientsById then [o] else []) by {
        assert [o][1..] == [];
      }
      var keptBefore := Filter(orders[..n], known);
      var scoredBefore := ScoreAll(now, patientsById, orders[..n]);
      if o.patientId in patientsById {
        assert Filter(orders, known) == keptBefore + [o];
        assert ScoreAll(now, patientsById, orders) == scoredBefore + [ScoreOrder(now, patientsById[o.patientId], o)];
      } else {
        assert Filter(orders, known) == keptBefore;
        assert ScoreAll(now, patientsById, orders) == scoredBefore;
      }
    }
  }

  // ---------------------------------------------------------------------
  // Ranking
  // ---------------------------------------------------------------------

  /** `a` may come before `b`: higher score, or equal score and due no later
      (the sort key `(-score, due_at)`). */
  predicate RanksAtLeast(a: ScoredOrder, b: ScoredOrder)
  {
    a.score > b.score || (a.score == b.score && a.order.dueAt <= b.order.dueAt)
  }

  /** `a` must come before `b`: its sort key is strictly smaller. */
  predicate RanksAbove(a: ScoredOrder, b: ScoredOrder)
  {
    a.score > b.score || (a.score == b.score && a.order.dueAt < b.order.dueAt)
  }

  /** Every entry may come before every later one. */
  predicate Ranked(s: seq<ScoredOrder>)
  {
    forall i, j :: 0 <= i < j < |s| ==> RanksAtLeast(s[i], s[j])
  }

  /** A ranked list is in order pair by pair, as the sort key demands. */
  lemma RankedAdjacent(s: seq<ScoredOrder>)
    requires Ranked(s)
    ensures forall k :: 0 <= k < |s| - 1 ==>
              s[k].score > s[k + 1].score || (s[k].score == s[k + 1].score && s[k].order.dueAt <= s[k + 1].order.dueAt)
  {
  }

  /** Inserts `x` into a ranked list after every entry it does not strictly
      outrank, so entries with an equal key keep their order. */
  function Insert(x: ScoredOrder, s: seq<ScoredOrder>): (r: seq<ScoredOrder>)
    ensures multiset(r) == multiset(s) + multiset{x}
    ensures |r| == |s| + 1
  {
    if s == [] then [x]
    else if RanksAbove(x, s[0]) then [x] + s
    else
      assert s == [s[0]] + s[1..];
      [s[0]] + Insert(x, s[1..])
  }

  lemma {:induction false} InsertRanked(x: ScoredOrder, s: seq<ScoredOrder>)
    requires Ranked(s)
    ensures Ranked(Insert(x, s))
  {
    if s == [] {
    } else if RanksAbove(x, s[0]) {
      var r := Insert(x, s);
      assert r == [x] + s;
      forall i, j | 0 <= i < j < |r| ensures RanksAtLeast(r[i], r[j]) {
        if i == 0 {
          assert r[j] == s[j - 1];
          assert RanksAtLeast(s[0], s[j - 1]) || j == 1;
        } else {
          assert r[i] == s[i - 1] && r[j] == s[j - 1];
        }
      }
    } else {
      var t := s[1..];
      assert Ranked(t);
      InsertRanked(x, t);
      var r := Insert(x, s);
      var rt := Insert(x, t);
      assert r == [s[0]] + rt;
      forall i, j | 0 <= i < j < |r| ensures RanksAtLeast(r[i], r[j]) {
        if i == 0 {
          assert r[j] == rt[j - 1];
          assert rt[j - 1] in multiset(rt);
          if rt[j - 1] != x {
            assert rt[j - 1] in multiset(t);
            var m :| 0 <= m < |t| && t[m] == rt[j - 1];
            assert s[m + 1] == t[m];
          }
        } else {
          assert r[i] == rt[i - 1] && r[j] == rt[j - 1];
        }
      }
    }
  }

  /** The stable sort by `(-score, due_at)`: each entry is inserted after
      the equal-keyed entries that precede it in the input. */
  function SortByPriority(s: seq<ScoredOrder>): (r: seq<ScoredOrder>)
    ensures multiset(r) == multiset(s)
    ensures |r| == |s|
  {
    if s == [] then []
    else
      var n := |s| - 1;
      assert s == s[..n] + [s[n]];
      Insert(s[n], SortByPriority(s[..n]))
  }

  lemma {:induction false} SortByPriorityRanked(s: seq<ScoredOrder>)
    ensures Ranked(SortByPriority(s))
  {
    if s != [] {
      var n := |s| - 1;
      var prefix := SortByPriority(s[..n]);
      assert SortByPriority(s) == Insert(s[n], prefix);
      SortByPriorityRanked(s[..n]);
      InsertRanked(s[n], prefix);
    }
  }

  /** The ranked list of a pass: sorted, a permutation of the scored orders,
      and every entry an input order of a known patient, scored by the
      formula. */
  lemma RankedFacts(now: Instant, patientsById: map<string, Patient>, orders: seq<Order>)
    ensures var r := SortByPriority(ScoreAll(now, patientsById, orders));
            && Ranked(r)
            && multiset(r) == multiset(ScoreAll(now, patientsById, orders))
            && |r| <= |orders|
            && forall k :: 0 <= k < |r| ==>
                 && r[k].order in orders
                 && r[k].order.patientId in patientsById
                 && r[k] == ScoreOrder(now, patientsById[r[k].order.patientId], r[k].order)
  {
    var all := ScoreAll(now, patientsById, orders);
    var r := SortByPriority(all);
    SortByPriorityRanked(all);
    forall k | 0 <= k < |r|
      ensures r[k] in all
    {
      assert r[k] in multiset(r);
    }
  }

  /** Every ranked entry's score is the v1 formula over its patient's acuity
      and its own type, due time and flags, and its breakdown records the
      factors that went into it. */
  lemma RankedScores(now: Instant, patientsById: map<string, Patient>, orders: seq<Order>)
    ensures var r := SortByPriority(ScoreAll(now, patientsById, orders));
            forall k :: 0 <= k < |r| ==>
              var o := r[k].order;
              && o.patientId in patientsById
              && var p := patientsById[o.patientId];
                 var urgency := Urgency(MinutesUntil(now, o.dueAt));
                 && r[k].score == AcuityWeight(p.acuity) * TypeWeight(o.orderType) * urgency
                                  + (if o.isStat then 1.5 else 0.0) - (if o.isPrn then 0.4 else 0.0)
                 && r[k].breakdown == ScoreBreakdown(p.acuity.Value(), o.orderType.Value(),
                                                     (o.dueAt - now) as real / 60.0, urgency, o.isStat, o.isPrn)
  {
    RankedFacts(now, patientsById, orders);
  }

  /** `score_orders`: scores every order of a known patient, then sorts by
      score descending with the earlier due time first on ties. */
  method ScoreOrders(now: Instant, patientsById: map<string, Patient>, orders: seq<Order>)
    returns (scored: seq<ScoredOrder>)
    ensures scored == SortByPriority(ScoreAll(now, patientsById, orders))
    ensures Ranked(scored)
    ensures |scored| <= |orders|
    ensures forall k :: 0 <= k < |scored| ==>
              && scored[k].order in orders
              && scored[k].order.patientId in patientsById
              && scored[k] == ScoreOrder(now, patientsById[scored[k].order.patientId], scored[k].order)
  {
    scored := [];
    for i := 0 to |orders|
      invariant scored == ScoreAll(now, patientsById, orders[..i])
    {
      var o := orders[i];
      assert orders[..i + 1][..i] == orders[..i] && orders[..i + 1][i] == o;
      assert ScoreAll(now, patientsById, orders[..i + 1])
             == ScoreAll(now, patientsById, orders[..i])
                + (if o.patientId in patientsById then [ScoreOrder(now, patientsById[o.patientId], o)] else []);
      if o.patientId !in patientsById {
        continue;
      }
      var p := patientsById[o.patientId];
      var mins := MinutesUntil(now, o.dueAt);
      var urgency := Urgency(mins);
      var score := PriorityScore(p.acuity, o.orderType, urgency, o.isStat, o.isPrn);
      var breakdown := ScoreBreakdown(p.acuity.Value(), o.orderType.Value(), mins, urgency, o.isStat, o.isPrn);
      scored := scored + [ScoredOrder(o, score, breakdown)];
    }
    assert orders[..|orders|] == orders;
    scored := SortByPriority(scored);
    RankedFacts(now, patientsById, orders);
  }

  // ---------------------------------------------------------------------
  // Timeline packing
  // ---------------------------------------------------------------------

  const InvalidShiftNote: string := "Invalid shift window: end_at must be after start_at."
  const ShiftEndedNote: string := "Shift window has already ended relative to current time."
  const ShiftFullNote: string := "Shift is full. Remaining tasks could not be scheduled."
  const TaskExceedsNote: string := "A task would exceed shift end. Stopping schedule generation."
  const UnknownPatientName: string := "Unknown patient"

  /** Where a task that starts at `start` for order `o` ends. */
  function TaskEnd(start: Instant, o: Order): Instant
  {
    start + o.durationMinutes * 60
  }

  /** The task for ranked entry `item`, placed on `[start, end)`. */
  function PlaceTask(item: ScoredOrder, patientsById: map<string, Patient>, start: Instant, end: Instant): ScheduledTask
  {
    var o := item.order;
    ScheduledTask(
      o.id, o.patientId,
      if o.patientId in patientsById then patientsById[o.patientId].displayName else UnknownPatientName,
      start, end, item.score, item.breakdown)
  }

  datatype Placement = Placement(tasks: seq<ScheduledTask>, notes: seq<string>)

  /** The packing sweep from `cursor` over the rest of the ranked list;
      `PackIsPrefix`, `PackTimeline`, `PackStops` and `PackNamesKnown`
      state what it does. */
  function Pack(cursor: Instant, shiftEnd: Instant, patientsById: map<string, Patient>,
                ranked: seq<ScoredOrder>): Placement
    decreases |ranked|
  {
    if ranked == [] then Placement([], [])
    else if cursor >= shiftEnd then Placement([], [ShiftFullNote])
    else
      var end := TaskEnd(cursor, ranked[0].order);
      if end > shiftEnd then Placement([], [TaskExceedsNote])
      else
        var rest := Pack(end, shiftEnd, patientsById, ranked[1..]);
        Placement([PlaceTask(ranked[0], patientsById, cursor, end)] + rest.tasks, rest.notes)
  }

  /** The placed tasks are the ranked entries' prefix, in ranked order. */
  lemma {:induction false} PackIsPrefix(cursor: Instant, shiftEnd: Instant, patientsById: map<string, Patient>,
                                        ranked: seq<ScoredOrder>)
    ensures var t := Pack(cursor, shiftEnd, patientsById, ranked).tasks;
            && |t| <= |ranked|
            && forall k :: 0 <= k < |t| ==>
                 && t[k].orderId == ranked[k].order.id
                 && t[k].patientId == ranked[k].order.patientId
                 && t[k].priorityScore == ranked[k].score
                 && t[k].scoreBreakdown == ranked[k].breakdown
    decreases |ranked|
  {
    if ranked != [] && cursor < shiftEnd && TaskEnd(cursor, ranked[0].order) <= shiftEnd {
      PackIsPrefix(TaskEnd(cursor, ranked[0].order), shiftEnd, patientsById, ranked[1..]);
    }
  }

  /** Placed tasks keep their order's duration, start at the cursor, follow
      one another without gaps and end within the shift. */
  lemma {:induction false} PackTimeline(cursor: Instant, shiftEnd: Instant, patientsById: map<string, Patient>,
                                        ranked: seq<ScoredOrder>)
    ensures var t := Pack(cursor, shiftEnd, patientsById, ranked).tasks;
            && |t| <= |ranked|
            && (t != [] ==> t[0].startsAt == cursor)
            && (forall k :: 0 <= k < |t| ==>
                  && t[k].endsAt - t[k].startsAt == ranked[k].order.durationMinutes * 60
                  && cursor <= t[k].startsAt < t[k].endsAt <= shiftEnd)
            && (forall k :: 0 <= k < |t| - 1 ==> t[k + 1].startsAt == t[k].endsAt)
    decreases |ranked|
  {
    if ranked != [] && cursor < shiftEnd && TaskEnd(cursor, ranked[0].order) <= shiftEnd {
      var end := TaskEnd(cursor, ranked[0].order);
      PackTimeline(end, shiftEnd, patientsById, ranked[1..]);
      var rest := Pack(end, shiftEnd, patientsById, ranked[1..]).tasks;
      var t := Pack(cursor, shiftEnd, patientsById, ranked).tasks;
      assert t == [PlaceTask(ranked[0], patientsById, cursor, end)] + rest;
      forall k | 0 <= k < |t| - 1 ensures t[k + 1].startsAt == t[k].endsAt {
        if k > 0 {
          assert t[k] == rest[k - 1] && t[k + 1] == rest[k];
        }
      }
    }
  }

  /** The sweep stops early only when it must, and then says why in exactly
      one note: the shift was full, or the next task (the first one not
      placed) would run past its end. */
  lemma {:induction false} PackStops(cursor: Instant, shiftEnd: Instant, patientsById: map<string, Patient>,
                                     ranked: seq<ScoredOrder>)
    ensures var p := Pack(cursor, shiftEnd, patientsById, ranked);
            var n := |p.tasks|;
            var free := if n == 0 then cursor else p.tasks[n - 1].endsAt;
            && n <= |ranked|
            && (n == |ranked| ==> p.notes == [])
            && (n < |ranked| ==>
                  if free >= shiftEnd then p.notes == [ShiftFullNote]
                  else p.notes == [TaskExceedsNote] && TaskEnd(free, ranked[n].order) > shiftEnd)
    decreases |ranked|
  {
    if ranked != [] && cursor < shiftEnd && TaskEnd(cursor, ranked[0].order) <= shiftEnd {
      var end := TaskEnd(cursor, ranked[0].order);
      PackStops(end, shiftEnd, patientsById, ranked[1..]);
      PackTimeline(end, shiftEnd, patientsById, ranked[1..]);
      var rest := Pack(end, shiftEnd, patientsById, ranked[1..]);
      var p := Pack(cursor, shiftEnd, patientsById, ranked);
      assert p.tasks == [PlaceTask(ranked[0], patientsById, cursor, end)] + rest.tasks;
      var n := |p.tasks|;
      if n < |ranked| && n > 1 {
        assert p.tasks[n - 1] == rest.tasks[n - 2];
        assert ranked[n] == ranked[1..][n - 1];
      }
    }
  }

  /** Each task names a patient of the lookup and carries that patient's
      display name. */
  predicate NamedAfterKnownPatients(tasks: seq<ScheduledTask>, patientsById: map<string, Patient>)
  {
    forall k :: 0 <= k < |tasks| ==>
      tasks[k].patientId in patientsById && tasks[k].patientDisplayName == patientsById[tasks[k].patientId].displayName
  }

  /** When every ranked entry has a known patient, each task carries that
      patient's display name: the "Unknown patient" fallback is unreachable. */
  lemma {:induction false} PackNamesKnown(cursor: Instant, shiftEnd: Instant, patientsById: map<string, Patient>,
                                          ranked: seq<ScoredOrder>)
    requires forall k :: 0 <= k < |ranked| ==> ranked[k].order.patientId in patientsById
    ensures NamedAfterKnownPatients(Pack(cursor, shiftEnd, patientsById, ranked).tasks, patientsById)
    decreases |ranked|
  {
    if ranked != [] && cursor < shiftEnd && TaskEnd(cursor, ranked[0].order) <= shiftEnd {
      var end := TaskEnd(cursor, ranked[0].order);
      PackNamesKnown(end, shiftEnd, patientsById, ranked[1..]);
      var rest := Pack(end, shiftEnd, patientsById, ranked[1..]).tasks;
      var first := PlaceTask(ranked[0], patientsById, cursor, end);
      assert Pack(cursor, shiftEnd, patientsById, ranked).tasks == [first] + rest;
      assert first.patientDisplayName == patientsById[first.patientId].displayName;
    }
  }

  // ---------------------------------------------------------------------
  // One scheduling pass
  // ---------------------------------------------------------------------

  /** The ranked orders of a request at time `now`. */
  function RankedOrders(req: ScheduleRequest, now: Instant): seq<ScoredOrder>
  {
    SortByPriority(ScoreAll(now, PatientIndex(req.patients), req.orders))
  }

  /** Where placement starts: the shift start, or `now` if the shift is
      already under way. */
  function StartCursor(shift: Shift, now: Instant): (c: Instant)
    ensures c >= shift.startAt && c >= now
    ensures c == shift.startAt || c == now
  {
    if now < shift.startAt then shift.startAt else now
  }

  /** The response of `generate_schedule` for `req` at time `now`; the
      `Schedule*` lemmas below state what it is. */
  function Schedule(req: ScheduleRequest, now: Instant): ScheduleResponse
  {
    var patientsById := PatientIndex(req.patients);
    var ranked := RankedOrders(req, now);
    var cursor := StartCursor(req.shift, now);
    if req.shift.endAt <= req.shift.startAt then
      ScheduleResponse(now, [], [InvalidShiftNote])
    else if cursor >= req.shift.endAt then
      ScheduleResponse(now, [], [ShiftEndedNote])
    else
      var p := Pack(cursor, req.shift.endAt, patientsById, ranked);
      ScheduleResponse(now, p.tasks, p.notes)
  }

  /** An invalid window yields no tasks and exactly the invalid-window note. */
  lemma ScheduleInvalidWindow(req: ScheduleRequest, now: Instant)
    requires req.shift.endAt <= req.shift.startAt
    ensures Schedule(req, now).tasks == []
    ensures Schedule(req, now).notes == [InvalidShiftNote]
  {
  }

  /** A valid window that has already passed yields no tasks and exactly the
      already-ended note. */
  lemma ScheduleShiftEnded(req: ScheduleRequest, now: Instant)
    requires req.shift.startAt < req.shift.endAt
    requires StartCursor(req.shift, now) >= req.shift.endAt
    ensures Schedule(req, now).tasks == []
    ensures Schedule(req, now).notes == [ShiftEndedNote]
  {
  }

  /** A valid window never draws the invalid-window note: the pass ends
      with no note, or with the already-ended, shift-full or would-exceed
      note. */
  lemma ValidWindowNotes(req: ScheduleRequest, now: Instant)
    requires req.shift.startAt < req.shift.endAt
    ensures var n := Schedule(req, now).notes;
            n == [] || n == [ShiftEndedNote] || n == [ShiftFullNote] || n == [TaskExceedsNote]
  {
    var cursor := StartCursor(req.shift, now);
    if cursor < req.shift.endAt {
      PackStops(cursor, req.shift.endAt, PatientIndex(req.patients), RankedOrders(req, now));
    }
  }

  /** Every pass: at most one note; a prefix of the ranked orders placed in
      ranked order; each task as long as its order, contiguous from the
      start cursor, inside the shift, and named after its known patient. */
  lemma ScheduleShape(req: ScheduleRequest, now: Instant)
    ensures var r := Schedule(req, now);
            var ranked := RankedOrders(req, now);
            var patientsById := PatientIndex(req.patients);
            && r.generatedAt == now
            && |r.notes| <= 1
            && |r.tasks| <= |ranked|
            && (r.tasks != [] ==> r.tasks[0].startsAt == StartCursor(req.shift, now))
            && (forall k :: 0 <= k < |r.tasks| - 1 ==> r.tasks[k + 1].startsAt == r.tasks[k].endsAt)
            && forall k :: 0 <= k < |r.tasks| ==>
                 && r.tasks[k].orderId == ranked[k].order.id
                 && r.tasks[k].priorityScore == ranked[k].score
                 && r.tasks[k].endsAt - r.tasks[k].startsAt == ranked[k].order.durationMinutes * 60
                 && req.shift.startAt <= r.tasks[k].startsAt
                 && now <= r.tasks[k].startsAt
                 && r.tasks[k].endsAt <= req.shift.endAt
                 && r.tasks[k].patientId in patientsById
                 && r.tasks[k].patientDisplayName == patientsById[r.tasks[k].patientId].displayName
  {
    var patientsById := PatientIndex(req.patients);
    var ranked := RankedOrders(req, now);
    var cursor := StartCursor(req.shift, now);
    RankedFacts(now, patientsById, req.orders);
    PackIsPrefix(cursor, req.shift.endAt, patientsById, ranked);
    PackTimeline(cursor, req.shift.endAt, patientsById, ranked);
    PackStops(cursor, req.shift.endAt, patientsById, ranked);
    PackNamesKnown(cursor, req.shift.endAt, patientsById, ranked);
  }

  /** The cursor loop of `generate_schedule`: walk the ranked list once from
      `cursor0`, placing each task right where the previous one ended, and
      stop with a note at the first task that does not fit. */
  method PlaceOnTimeline(cursor0: Instant, shiftEnd: Instant, patientsById: map<string, Patient>,
                         scored: seq<ScoredOrder>)
    returns (tasks: seq<ScheduledTask>, notes: seq<string>)
    ensures tasks == Pack(cursor0, shiftEnd, patientsById, scored).tasks
    ensures notes == Pack(cursor0, shiftEnd, patientsById, scored).notes
  {
    var cursor := cursor0;
    tasks := [];
    notes := [];
    ghost var whole := Pack(cursor, shiftEnd, patientsById, scored);
    for i := 0 to |scored|
      invariant notes == []
      invariant whole.tasks == tasks + Pack(cursor, shiftEnd, patientsById, scored[i..]).tasks
      invariant whole.notes == Pack(cursor, shiftEnd, patientsById, scored[i..]).notes
    {
      var item := scored[i];
      var o := item.order;
      ghost var here := Pack(cursor, shiftEnd, patientsById, scored[i..]);
      if cursor >= shiftEnd {
        assert here == Placement([], [ShiftFullNote]);
        notes := notes + [ShiftFullNote];
        break;
      }
      var start := cursor;
      var end := TaskEnd(start, o);
      if end > shiftEnd {
        assert here == Placement([], [TaskExceedsNote]);
        notes := notes + [TaskExceedsNote];
        break;
      }
      var task := PlaceTask(item, patientsById, start, end);
      assert scored[i..][1..] == scored[i + 1..];
      ghost var next := Pack(end, shiftEnd, patientsById, scored[i + 1..]);
      assert here == Placement([task] + next.tasks, next.notes);
      assert tasks + here.tasks == (tasks + [task]) + next.tasks;
      tasks := tasks + [task];
      cursor := end;
    }
    assert scored[|scored|..] == [];
  }

  /** `generate_schedule` with the clock read replaced by `now`: score and
      rank the orders, reject an invalid or already-ended shift with a note,
      otherwise place the ranked orders from the start cursor. */
  method GenerateSchedule(req: ScheduleRequest, now: Instant) returns (resp: ScheduleResponse)
    ensures resp == Schedule(req, now)
  {
    var patientsById := PatientIndex(req.patients);
    var scored := ScoreOrders(now, patientsById, req.orders);
    var shiftStart := req.shift.startAt;
    var shiftEnd := req.shift.endAt;
    var cursor := if now < shiftStart then shiftStart else now;
    assert scored == RankedOrders(req, now) && cursor == StartCursor(req.shift, now);

    if shiftEnd <= shiftStart {
      return ScheduleResponse(now, [], [InvalidShiftNote]);
    }
    if cursor >= shiftEnd {
      return ScheduleResponse(now, [], [ShiftEndedNote]);
    }

    var tasks, notes := PlaceOnTimeline(cursor, shiftEnd, patientsById, scored);
    resp := ScheduleResponse(now, tasks, notes);
  }
}
