/** The clinical records the planner works on: patients with an acuity level,
    orders of a closed set of types with a due time and a bounded duration,
    the shift window, and the request/response shapes of one scheduling pass.

    Instants are whole seconds on a common UTC time line; durations are whole
    minutes. */
module Clinical {
  import opened Prelude

  /** Seconds since a fixed UTC epoch. */
  type Instant = int

  datatype AcuityLevel = Low | Medium | High | Critical
  {
    /** The enum's string value, as carried in score breakdowns. */
    function Value(): string
    {
      match this
      case Low => "low"
      case Medium => "medium"
      case High => "high"
      case Critical => "critical"
    }

    /** Position in the severity order low < medium < high < critical. */
    function Rank(): (r: nat)
      ensures r < 4
    {
      match this
      case Low => 0
      case Medium => 1
      case High => 2
      case Critical => 3
    }
  }

  /** Parsing a string into the enum: only the four values are accepted. */
  function ParseAcuity(s: string): (r: Option<AcuityLevel>)
    ensures r.Some? ==> r.value.Value() == s
    ensures (exists a: AcuityLevel :: a.Value() == s) ==> r.Some?
  {
    if s == "low" then Some(Low)
    else if s == "medium" then Some(Medium)
    else if s == "high" then Some(High)
    else if s == "critical" then Some(Critical)
    else None
  }

  datatype OrderType = Medication | Procedure | Lab | Assessment
  {
    function Value(): string
    {
      match this
      case Medication => "medication"
      case Procedure => "procedure"
      case Lab => "lab"
      case Assessment => "assessment"
    }
  }

  function ParseOrderType(s: string): (r: Option<OrderType>)
    ensures r.Some? ==> r.value.Value() == s
    ensures (exists t: OrderType :: t.Value() == s) ==> r.Some?
  {
    if s == "medication" then Some(Medication)
    else if s == "procedure" then Some(Procedure)
    else if s == "lab" then Some(Lab)
    else if s == "assessment" then Some(Assessment)
    else None
  }

  /** The enum values are distinct strings, so each value names one level. */
  lemma ValuesRoundTrip(a: AcuityLevel, t: OrderType)
    ensures ParseAcuity(a.Value()) == Some(a)
    ensures ParseOrderType(t.Value()) == Some(t)
  {
  }

  const MinDuration: int := 1
  const MaxDuration: int := 240
  const DefaultDuration: int := 10

  /** An order's duration in minutes; the schema bounds it to [1, 240]. */
  type DurationMinutes = d: int | MinDuration <= d <= MaxDuration witness DefaultDuration

  datatype Order = Order(
    id: string,
    patientId: string,
    orderType: OrderType,
    description: string,
    dueAt: Instant,
    durationMinutes: DurationMinutes,
    isPrn: bool,
    isStat: bool)

  /** An order built with the schema defaults for the optional fields. */
  function NewOrder(id: string, patientId: string, orderType: OrderType,
                    description: string, dueAt: Instant): (o: Order)
    ensures o.durationMinutes == DefaultDuration
    ensures !o.isPrn && !o.isStat
    ensures o.id == id && o.patientId == patientId && o.dueAt == dueAt
    ensures o.orderType == orderType && o.description == description
  {
    Order(id, patientId, orderType, description, dueAt, DefaultDuration, false, false)
  }

  datatype Patient = Patient(id: string, displayName: string, acuity: AcuityLevel)

  datatype Shift = Shift(startAt: Instant, endAt: Instant)

  datatype ScheduleRequest = ScheduleRequest(
    shift: Shift,
    patients: seq<Patient>,
    orders: seq<Order>)

  /** Why an order got its score. Minutes and urgency are kept exact here. */
  datatype ScoreBreakdown = ScoreBreakdown(
    acuity: string,
    orderType: string,
    dueInMinutes: real,
    urgency: real,
    isStat: bool,
    isPrn: bool)

  /** A task placed on the shift timeline. */
  datatype ScheduledTask = ScheduledTask(
    orderId: string,
    patientId: string,
    patientDisplayName: string,
    startsAt: Instant,
    endsAt: Instant,
    priorityScore: real,
    scoreBreakdown: ScoreBreakdown)

  datatype ScheduleResponse = ScheduleResponse(
    generatedAt: Instant,
    tasks: seq<ScheduledTask>,
    notes: seq<string>)

  /** A response built with the schema default for `notes`. */
  function NewResponse(generatedAt: Instant, tasks: seq<ScheduledTask>): (r: ScheduleResponse)
    ensures r.notes == []
    ensures r.tasks == tasks && r.generatedAt == generatedAt
  {
    ScheduleResponse(generatedAt, tasks, [])
  }

  /** The set of ids of a patient list. */
  function PatientIds(ps: seq<Patient>): set<string>
  {
    set p | p in ps :: p.id
  }

  /** `{p.id: p for p in ps}`: later patients overwrite earlier ones with the
      same id. */
  function PatientIndex(ps: seq<Patient>): (m: map<string, Patient>)
    ensures m.Keys == PatientIds(ps)
    ensures forall id :: id in m ==> m[id].id == id && m[id] in ps
  {
    if ps == [] then map[]
    else
      var n := |ps| - 1;
      assert ps == ps[..n] + [ps[n]];
      assert PatientIds(ps) == PatientIds(ps[..n]) + {ps[n].id};
      PatientIndex(ps[..n])[ps[n].id := ps[n]]
  }

  /** When ids repeat, the index holds the last patient with that id. */
  lemma {:induction false} PatientIndexLastWins(ps: seq<Patient>, i: nat)
    requires i < |ps|
    requires forall j :: i < j < |ps| ==> ps[j].id != ps[i].id
    ensures PatientIndex(ps)[ps[i].id] == ps[i]
  {
    var n := |ps| - 1;
    if i < n {
      PatientIndexLastWins(ps[..n], i);
    }
  }
}
