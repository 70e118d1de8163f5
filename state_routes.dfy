/** The mutation handlers of the state endpoints, without the HTTP layer:
    each works on the one shift context and returns a success value or the
    error the endpoint would have raised. Together they keep the store
    consistent: unique patient ids, unique order ids, and every order
    naming a stored patient. */
module StateRoutes {
  import opened Prelude
  import opened Clinical
  import opened CoreState
  import Scheduler

  datatype ApiError =
    | InvalidShiftWindow
    | DuplicatePatientIds
    | UnknownPatient(patientId: string)
    | DuplicateOrderId(orderId: string)
    | OrderNotFound(orderId: string)
    | ShiftNotSet

  /** Whether an order belongs to one of the patients `ids`. */
  function BelongsTo(ids: set<string>): Order -> bool
  {
    (o: Order) => o.patientId in ids
  }

  /** Whether an order has an id other than `orderId`. */
  function IdIsNot(orderId: string): Order -> bool
  {
    (o: Order) => o.id != orderId
  }

  /** Dropping orders never creates a duplicate order id. */
  lemma {:induction false} FilterKeepsUniqueOrderIds(os: seq<Order>, keep: Order -> bool)
    requires UniqueOrderIds(os)
    ensures UniqueOrderIds(Filter(os, keep))
  {
    if os != [] {
      var tail := os[1..];
      assert UniqueOrderIds(tail) by {
        forall i, j | 0 <= i < j < |tail| ensures tail[i].id != tail[j].id {
          assert tail[i] == os[i + 1] && tail[j] == os[j + 1];
        }
      }
      FilterKeepsUniqueOrderIds(tail, keep);
      var rest := Filter(tail, keep);
      if keep(os[0]) {
        var r := Filter(os, keep);
        assert r == [os[0]] + rest;
        forall i, j | 0 <= i < j < |r| ensures r[i].id != r[j].id {
          if i == 0 {
            assert r[j] == rest[j - 1] && rest[j - 1] in tail;
            var m :| 0 <= m < |tail| && tail[m] == rest[j - 1];
            assert os[m + 1] == tail[m];
          } else {
            assert r[i] == rest[i - 1] && r[j] == rest[j - 1];
          }
        }
      }
    }
  }

  /** Appending an order whose id is new keeps order ids unique. */
  lemma AppendKeepsUniqueOrderIds(os: seq<Order>, order: Order)
    requires UniqueOrderIds(os)
    requires forall o :: o in os ==> o.id != order.id
    ensures UniqueOrderIds(os + [order])
  {
  }

  /** When every order names a stored patient, scoring keeps every order,
      in input order. */
  lemma StoredOrdersAreAllScored(patients: seq<Patient>, orders: seq<Order>, now: Instant)
    requires OrdersReferencePatients(patients, orders)
    ensures var all := Scheduler.ScoreAll(now, PatientIndex(patients), orders);
            && |all| == |orders|
            && forall k :: 0 <= k < |orders| ==> all[k].order == orders[k]
  {
    var patientsById := PatientIndex(patients);
    var known := Scheduler.IsKnown(patientsById);
    forall x | x in orders ensures known(x) {
      var k :| 0 <= k < |orders| && orders[k] == x;
      assert x.patientId in PatientIds(patients);
    }
    FilterLength(orders, known);
    Scheduler.ScoreAllIsRetained(now, patientsById, orders);
  }

  /** When every order names a stored patient, no order is skipped as
      unknown: the ranked list holds every stored order. */
  lemma StoredOrdersAreAllRanked(patients: seq<Patient>, orders: seq<Order>, now: Instant)
    requires OrdersReferencePatients(patients, orders)
    ensures var ranked := Scheduler.SortByPriority(Scheduler.ScoreAll(now, PatientIndex(patients), orders));
            && |ranked| == |orders|
            && forall k :: 0 <= k < |orders| ==> exists j :: 0 <= j < |ranked| && ranked[j].order == orders[k]
  {
    var all := Scheduler.ScoreAll(now, PatientIndex(patients), orders);
    var ranked := Scheduler.SortByPriority(all);
    StoredOrdersAreAllScored(patients, orders, now);
    forall k | 0 <= k < |orders|
      ensures exists j :: 0 <= j < |ranked| && ranked[j].order == orders[k]
    {
      assert all[k] in multiset(ranked);
      var j :| 0 <= j < |ranked| && ranked[j] == all[k];
    }
  }

  /** A replan of a consistent store that ends without a note has placed
      every stored order. */
  lemma ConsistentReplanPlacesAll(shift: Shift, patients: seq<Patient>, orders: seq<Order>, now: Instant)
    requires OrdersReferencePatients(patients, orders)
    ensures var r := Scheduler.Schedule(ScheduleRequest(shift, patients, orders), now);
            r.notes == [] ==> forall k :: 0 <= k < |orders| ==>
                                exists j :: 0 <= j < |r.tasks| && r.tasks[j].orderId == orders[k].id
  {
    var req := ScheduleRequest(shift, patients, orders);
    var r := Scheduler.Schedule(req, now);
    if r.notes == [] {
      var patientsById := PatientIndex(patients);
      var ranked := Scheduler.RankedOrders(req, now);
      var cursor := Scheduler.StartCursor(shift, now);
      var p := Scheduler.Pack(cursor, shift.endAt, patientsById, ranked);
      assert r.tasks == p.tasks && r.notes == p.notes;
      StoredOrdersAreAllRanked(patients, orders, now);
      Scheduler.PackStops(cursor, shift.endAt, patientsById, ranked);
      Scheduler.PackIsPrefix(cursor, shift.endAt, patientsById, ranked);
      assert |p.tasks| == |ranked|;
      forall k | 0 <= k < |orders|
        ensures exists j :: 0 <= j < |r.tasks| && r.tasks[j].orderId == orders[k].id
      {
        var j :| 0 <= j < |ranked| && ranked[j].order == orders[k];
        assert p.tasks[j].orderId == ranked[j].order.id;
      }
    }
  }

  /** `set_shift`: accept only a window whose end is after its start. */
  method SetShift(ctx: ShiftContext, shift: Shift) returns (r: Result<Shift, ApiError>)
    modifies ctx
    ensures r.Err? <==> shift.endAt <= shift.startAt
    ensures r.Err? ==> r.error == InvalidShiftWindow && ctx.shift == old(ctx.shift)
    ensures r.Ok? ==> r.value == shift && ctx.shift == Some(shift)
    ensures ctx.patients == old(ctx.patients) && ctx.orders == old(ctx.orders)
    ensures old(ctx.Consistent()) ==> ctx.Consistent()
  {
    if shift.endAt <= shift.startAt {
      return Err(InvalidShiftWindow);
    }
    ctx.shift := Some(shift);
    r := Ok(shift);
  }

  /** `set_patients`: replace the patient list if its ids are unique, and
      drop the orders of patients who are no longer listed. */
  method SetPatients(ctx: ShiftContext, patients: seq<Patient>) returns (r: Result<seq<Patient>, ApiError>)
    modifies ctx
    ensures r.Err? <==> !UniquePatientIds(patients)
    ensures r.Err? ==> r.error == DuplicatePatientIds
                       && ctx.patients == old(ctx.patients) && ctx.orders == old(ctx.orders)
    ensures r.Ok? ==> && r.value == patients
                      && ctx.patients == patients
                      && ctx.orders == Filter(old(ctx.orders), BelongsTo(PatientIds(patients)))
    ensures ctx.shift == old(ctx.shift)
    ensures r.Ok? ==> forall o :: o in ctx.orders <==> o in old(ctx.orders) && o.patientId in PatientIds(patients)
    ensures old(ShiftWindowValid(ctx.shift) && UniqueOrderIds(ctx.orders)) && r.Ok? ==> ctx.Consistent()
    ensures old(ctx.Consistent()) ==> ctx.Consistent()
  {
    var ids := PatientIdList(patients);
    DistinctIffNoCollapse(ids);
    if |ids| != |Elements(ids)| {
      return Err(DuplicatePatientIds);
    }
    ghost var before := ctx.orders;
    ctx.patients := patients;
    var patientIds := Elements(ids);
    ctx.orders := Filter(ctx.orders, BelongsTo(patientIds));
    r := Ok(patients);
    if UniqueOrderIds(before) {
      FilterKeepsUniqueOrderIds(before, BelongsTo(patientIds));
    }
    assert forall k :: 0 <= k < |ctx.orders| ==> ctx.orders[k] in ctx.orders;
  }

  /** `add_order`: append the order if its patient is known and its id is
      not taken. */
  method AddOrder(ctx: ShiftContext, order: Order) returns (r: Result<Order, ApiError>)
    modifies ctx
    ensures order.patientId !in PatientIds(old(ctx.patients)) ==> r == Err(UnknownPatient(order.patientId))
    ensures order.patientId in PatientIds(old(ctx.patients)) && (exists o :: o in old(ctx.orders) && o.id == order.id)
            ==> r == Err(DuplicateOrderId(order.id))
    ensures r.Ok? <==> order.patientId in PatientIds(old(ctx.patients))
                       && forall o :: o in old(ctx.orders) ==> o.id != order.id
    ensures r.Ok? ==> r.value == order && ctx.orders == old(ctx.orders) + [order]
    ensures r.Err? ==> ctx.orders == old(ctx.orders)
    ensures ctx.shift == old(ctx.shift) && ctx.patients == old(ctx.patients)
    ensures old(ctx.Consistent()) ==> ctx.Consistent()
  {
    if !ctx.HasPatient(order.patientId) {
      return Err(UnknownPatient(order.patientId));
    }
    if exists o :: o in ctx.orders && o.id == order.id {
      return Err(DuplicateOrderId(order.id));
    }
    ghost var before := ctx.orders;
    ctx.orders := ctx.orders + [order];
    r := Ok(order);
    if StoreInvariant(ctx.patients, before) {
      AppendKeepsUniqueOrderIds(before, order);
    }
  }

  /** `delete_order`: remove every order with the id; report not-found when
      that removed nothing. */
  method DeleteOrder(ctx: ShiftContext, orderId: string) returns (r: Result<(), ApiError>)
    modifies ctx
    ensures ctx.orders == Filter(old(ctx.orders), IdIsNot(orderId))
    ensures forall o :: o in ctx.orders <==> o in old(ctx.orders) && o.id != orderId
    ensures r.Err? <==> forall o :: o in old(ctx.orders) ==> o.id != orderId
    ensures r.Err? ==> r.error == OrderNotFound(orderId) && ctx.orders == old(ctx.orders)
    ensures ctx.shift == old(ctx.shift) && ctx.patients == old(ctx.patients)
    ensures old(ctx.Consistent()) ==> ctx.Consistent()
  {
    var before := |ctx.orders|;
    ghost var old_orders := ctx.orders;
    FilterLength(ctx.orders, IdIsNot(orderId));
    ctx.orders := Filter(ctx.orders, IdIsNot(orderId));
    if UniqueOrderIds(old_orders) {
      FilterKeepsUniqueOrderIds(old_orders, IdIsNot(orderId));
    }
    assert forall k :: 0 <= k < |ctx.orders| ==> ctx.orders[k] in old_orders;
    if |ctx.orders| == before {
      return Err(OrderNotFound(orderId));
    }
    r := Ok(());
  }

  /** `replan`: schedule exactly the stored shift, patients and orders, or
      fail when no shift has been set. */
  method Replan(ctx: ShiftContext, now: Instant) returns (r: Result<ScheduleResponse, ApiError>)
    ensures r.Err? <==> ctx.shift.None?
    ensures r.Err? ==> r.error == ShiftNotSet
    ensures r.Ok? ==> r.value == Scheduler.Schedule(ScheduleRequest(ctx.shift.value, ctx.patients, ctx.orders), now)
    ensures r.Ok? && ctx.Consistent() ==>
              var n := r.value.notes;
              n == [] || n == [Scheduler.ShiftEndedNote] || n == [Scheduler.ShiftFullNote] || n == [Scheduler.TaskExceedsNote]
  {
    if ctx.shift.None? {
      return Err(ShiftNotSet);
    }
    var req := ScheduleRequest(ctx.shift.value, ctx.patients, ctx.orders);
    var resp := Scheduler.GenerateSchedule(req, now);
    r := Ok(resp);
    if ctx.Consistent() {
      Scheduler.ValidWindowNotes(req, now);
    }
  }

  /** `reset_state`: back to the empty store. */
  method ResetState(ctx: ShiftContext)
    modifies ctx
    ensures ctx.shift == None && ctx.patients == [] && ctx.orders == []
    ensures ctx.Consistent()
  {
    ctx.Reset();
  }
}
