/** The sample request of the demo payload, taken at `now` = 0: a shift
    from 10 minutes after `now` for 12 hours, a critical patient with a
    STAT procedure due at 90 minutes into the shift, and a low-acuity
    patient with a routine medication due at 45 minutes. */
module Demo {
  import opened Clinical
  import Scheduler

  const ShiftStart: Instant := 600
  const ShiftEnd: Instant := 600 + 12 * 3600

  function DemoRequest(): ScheduleRequest
  {
    ScheduleRequest(
      Shift(ShiftStart, ShiftEnd),
      [Patient("p1", "Patient A", Critical), Patient("p2", "Patient B", Low)],
      [Order("o1", "p2", Medication, "Routine med (demo)", ShiftStart + 45 * 60, 10, false, false),
       Order("o2", "p1", Procedure, "Critical stat procedure (demo)", ShiftStart + 90 * 60, 20, false, true)])
  }

  /** The demo's patient lookup holds both patients. */
  lemma DemoIndex()
    ensures PatientIndex(DemoRequest().patients)
            == map["p1" := DemoRequest().patients[0], "p2" := DemoRequest().patients[1]]
  {
  }

  /** The STAT procedure of the critical patient outscores the routine
      medication of the low-acuity patient. */
  lemma DemoScores()
    ensures var req := DemoRequest();
            Scheduler.ScoreOrder(0, req.patients[1], req.orders[0]).score
              < Scheduler.ScoreOrder(0, req.patients[0], req.orders[1]).score
  {
  }

  /** The ranked list puts the procedure first. */
  lemma DemoRanking()
    ensures var req := DemoRequest();
            Scheduler.RankedOrders(req, 0)
              == [Scheduler.ScoreOrder(0, req.patients[0], req.orders[1]),
                  Scheduler.ScoreOrder(0, req.patients[1], req.orders[0])]
  {
    var req := DemoRequest();
    var patientsById := PatientIndex(req.patients);
    DemoIndex();
    DemoScores();
    var s1 := Scheduler.ScoreOrder(0, req.patients[1], req.orders[0]);
    var s2 := Scheduler.ScoreOrder(0, req.patients[0], req.orders[1]);
    assert req.orders[..1] == [req.orders[0]];
    assert req.orders[..1][..0] == [];
    assert Scheduler.ScoreAll(0, patientsById, req.orders[..1]) == [s1];
    assert Scheduler.ScoreAll(0, patientsById, req.orders) == [s1, s2];
    assert [s1][..0] == [];
    assert Scheduler.SortByPriority([s1]) == [s1];
    assert [s1, s2][..1] == [s1];
    assert Scheduler.Insert(s2, [s1]) == [s2, s1];
  }

  /** Two entries that fit back to back are both placed, with no note. */
  lemma PackTwo(cursor: Instant, shiftEnd: Instant, patientsById: map<string, Patient>,
                a: Scheduler.ScoredOrder, b: Scheduler.ScoredOrder)
    requires cursor < Scheduler.TaskEnd(cursor, a.order) < shiftEnd
    requires Scheduler.TaskEnd(Scheduler.TaskEnd(cursor, a.order), b.order) <= shiftEnd
    ensures var mid := Scheduler.TaskEnd(cursor, a.order);
            var p := Scheduler.Pack(cursor, shiftEnd, patientsById, [a, b]);
            && p.notes == []
            && p.tasks == [Scheduler.PlaceTask(a, patientsById, cursor, mid),
                           Scheduler.PlaceTask(b, patientsById, mid, Scheduler.TaskEnd(mid, b.order))]
  {
    var mid := Scheduler.TaskEnd(cursor, a.order);
    var last := Scheduler.TaskEnd(mid, b.order);
    assert [a, b][1..] == [b];
    assert [b][1..] == [];
    assert Scheduler.Pack(last, shiftEnd, patientsById, []) == Scheduler.Placement([], []);
    assert Scheduler.Pack(mid, shiftEnd, patientsById, [b]).tasks == [Scheduler.PlaceTask(b, patientsById, mid, last)];
  }

  /** The critical STAT procedure is placed first, at the shift start, and
      the routine medication right after it; nothing is left over. */
  lemma DemoSchedule()
    ensures var r := Scheduler.Schedule(DemoRequest(), 0);
            && r.notes == []
            && |r.tasks| == 2
            && r.tasks[0].orderId == "o2" && r.tasks[0].patientDisplayName == "Patient A"
            && r.tasks[0].startsAt == 600 && r.tasks[0].endsAt == 1800
            && r.tasks[1].orderId == "o1" && r.tasks[1].patientDisplayName == "Patient B"
            && r.tasks[1].startsAt == 1800 && r.tasks[1].endsAt == 2400
  {
    var req := DemoRequest();
    var patientsById := PatientIndex(req.patients);
    DemoIndex();
    DemoRanking();
    var a := Scheduler.ScoreOrder(0, req.patients[0], req.orders[1]);
    var b := Scheduler.ScoreOrder(0, req.patients[1], req.orders[0]);
    assert Scheduler.StartCursor(req.shift, 0) == 600;
    assert Scheduler.Schedule(req, 0).tasks == Scheduler.Pack(600, ShiftEnd, patientsById, [a, b]).tasks;
    assert Scheduler.Schedule(req, 0).notes == Scheduler.Pack(600, ShiftEnd, patientsById, [a, b]).notes;
    PackTwo(600, ShiftEnd, patientsById, a, b);
  }
}
