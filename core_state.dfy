/** The in-memory shift context: the working set (shift window, patients,
    orders) that the state handlers accumulate between scheduling passes. */
module CoreState {
  import opened Prelude
  import opened Clinical

  /** The ids of a patient list, in list order. */
  function PatientIdList(ps: seq<Patient>): (ids: seq<string>)
    ensures |ids| == |ps|
    ensures forall i :: 0 <= i < |ps| ==> ids[i] == ps[i].id
    ensures Elements(ids) == PatientIds(ps)
  {
    var ids := seq(|ps|, i requires 0 <= i < |ps| => ps[i].id);
    assert forall x :: x in PatientIds(ps) ==> x in ids by {
      forall x | x in PatientIds(ps) ensures x in ids {
        var p :| p in ps && p.id == x;
        var i :| 0 <= i < |ps| && ps[i] == p;
        assert ids[i] == x;
      }
    }
    ids
  }

  predicate UniquePatientIds(ps: seq<Patient>)
  {
    Distinct(PatientIdList(ps))
  }

  /** No two orders share an id. */
  predicate UniqueOrderIds(os: seq<Order>)
  {
    forall i, j :: 0 <= i < j < |os| ==> os[i].id != os[j].id
  }

  /** Every order names a patient of the list. */
  predicate OrdersReferencePatients(ps: seq<Patient>, os: seq<Order>)
  {
    forall k :: 0 <= k < |os| ==> os[k].patientId in PatientIds(ps)
  }

  /** A stored shift, if any, ends after it starts. */
  predicate ShiftWindowValid(shift: Option<Shift>)
  {
    shift.Some? ==> shift.value.startAt < shift.value.endAt
  }

  /** The consistency the state handlers maintain over patients and orders. */
  predicate StoreInvariant(ps: seq<Patient>, os: seq<Order>)
  {
    UniquePatientIds(ps) && UniqueOrderIds(os) && OrdersReferencePatients(ps, os)
  }

  class ShiftContext {
    var shift: Option<Shift>
    var patients: seq<Patient>
    var orders: seq<Order>

    /** A fresh context: no shift and no patients or orders. */
    constructor ()
      ensures shift == None && patients == [] && orders == []
      ensures Consistent()
    {
      shift := None;
      patients := [];
      orders := [];
    }

    /** What every state handler preserves. */
    ghost predicate Consistent()
      reads this
    {
      ShiftWindowValid(shift) && StoreInvariant(patients, orders)
    }

    /** `{p.id: p for p in patients}`. */
    function PatientsById(): (m: map<string, Patient>)
      reads this
      ensures m.Keys == PatientIds(patients)
      ensures forall id :: id in m ==> m[id].id == id && m[id] in patients
    {
      PatientIndex(patients)
    }

    /** `any(p.id == patient_id for p in patients)`. */
    function HasPatient(patientId: string): (b: bool)
      reads this
      ensures b <==> patientId in PatientsById()
      ensures b <==> exists i :: 0 <= i < |patients| && patients[i].id == patientId
    {
      exists p :: p in patients && p.id == patientId
    }

    /** `reset_context`: the store is emptied again. */
    method Reset()
      modifies this
      ensures shift == None && patients == [] && orders == []
      ensures Consistent()
    {
      shift := None;
      patients := [];
      orders := [];
    }
  }
}
