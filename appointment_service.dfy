/**
 * The appointment service: a table of appointments, each with a status
 * and a soft-delete flag, plus the notification log. Every handler ends in
 * an empty `catch`, so a failed request writes nothing and answers
 * `undefined`: `None` here.
 */
module AppointmentService {
  import opened Wrappers
  import opened Notifications

  type AppointmentId = string

  /** An instant, as `Date.getTime()` gives it. */
  type Time = int

  datatype AppointmentStatus = Created | Approved | Refused | Canceled | Completed

  /** The fields the caller fills in when booking. */
  datatype Details = Details(
    fullName: string,
    phone: string,
    notes: string,
    dateOfBirth: Time,
    dateMeeting: Time,
    timeMeeting: string)

  datatype Appointment = Appointment(
    id: AppointmentId,
    details: Details,
    status: AppointmentStatus,
    patientId: UserId,
    doctorId: UserId,
    createdBy: UserId,
    updatedBy: Option<UserId>,
    isDeleted: bool,
    deletedBy: Option<UserId>)

  datatype Patient = Patient(fullName: string, doctorId: UserId)

  datatype Doctor = Doctor(fullName: string)

  // ---------------------------------------------------------------------
  // update
  // ---------------------------------------------------------------------

  /** The body of `update`: a field left undefined is not written. */
  datatype Patch = Patch(
    fullName: Option<string>,
    phone: Option<string>,
    notes: Option<string>,
    dateOfBirth: Option<Time>,
    dateMeeting: Option<Time>,
    timeMeeting: Option<string>)

  function Pick<T>(given: Option<T>, current: T): T {
    if given.Some? then given.value else current
  }

  /** The details after `p` is written over `d`. */
  function Patched(d: Details, p: Patch): (r: Details)
    ensures p.fullName.Some? ==> r.fullName == p.fullName.value
    ensures p.fullName.None? ==> r.fullName == d.fullName
    ensures p.phone.Some? ==> r.phone == p.phone.value
    ensures p.phone.None? ==> r.phone == d.phone
    ensures p.notes.Some? ==> r.notes == p.notes.value
    ensures p.notes.None? ==> r.notes == d.notes
    ensures p.dateOfBirth.Some? ==> r.dateOfBirth == p.dateOfBirth.value
    ensures p.dateOfBirth.None? ==> r.dateOfBirth == d.dateOfBirth
    ensures p.dateMeeting.Some? ==> r.dateMeeting == p.dateMeeting.value
    ensures p.dateMeeting.None? ==> r.dateMeeting == d.dateMeeting
    ensures p.timeMeeting.Some? ==> r.timeMeeting == p.timeMeeting.value
    ensures p.timeMeeting.None? ==> r.timeMeeting == d.timeMeeting
  {
    Details(Pick(p.fullName, d.fullName), Pick(p.phone, d.phone), Pick(p.notes, d.notes),
            Pick(p.dateOfBirth, d.dateOfBirth), Pick(p.dateMeeting, d.dateMeeting),
            Pick(p.timeMeeting, d.timeMeeting))
  }

  /** The patch that leaves every field undefined. */
  const EmptyPatch: Patch := Patch(None, None, None, None, None, None)

  /** An empty patch writes nothing, and writing the same patch twice is writing it once. */
  lemma {:induction false} PatchedLaws(d: Details, p: Patch)
    ensures Patched(d, EmptyPatch) == d
    ensures Patched(Patched(d, p), p) == Patched(d, p)
  {
  }

  /** A patch that defines every field gives exactly those fields, whatever was there. */
  lemma {:induction false} PatchedFull(d: Details, e: Details)
    ensures Patched(d, Patch(Some(e.fullName), Some(e.phone), Some(e.notes), Some(e.dateOfBirth),
                             Some(e.dateMeeting), Some(e.timeMeeting))) == e
  {
  }

  // ---------------------------------------------------------------------
  // The completion sweep of getAppointmentPatient
  // ---------------------------------------------------------------------

  /** An approved appointment whose meeting time has passed is completed; any other is as it was. */
  function Swept(a: Appointment, now: Time): (r: Appointment)
    ensures r.status == Completed <==> a.status == Completed || (a.details.dateMeeting < now && a.status == Approved)
    ensures r.status != a.status ==> a.status == Approved && r.status == Completed
    ensures r == a.(status := r.status)
  {
    if a.details.dateMeeting < now && a.status == Approved then a.(status := Completed) else a
  }

  /** Sweeping twice changes nothing more. */
  lemma {:induction false} SweptIdempotent(a: Appointment, now: Time)
    ensures Swept(Swept(a, now), now) == Swept(a, now)
  {
  }

  /** Once completed at some instant, an appointment is completed at every later one. */
  lemma {:induction false} SweptMonotone(a: Appointment, now1: Time, now2: Time)
    requires now1 <= now2 && Swept(a, now1).status == Completed
    ensures Swept(a, now2).status == Completed
  {
  }

  /** The page the sweep returns: every row swept, in the same order. */
  function SweptPage(page: seq<Appointment>, now: Time): (r: seq<Appointment>)
    ensures |r| == |page|
    ensures forall i :: 0 <= i < |page| ==> r[i] == Swept(page[i], now)
  {
    if page == [] then [] else SweptPage(page[..|page| - 1], now) + [Swept(page[|page| - 1], now)]
  }

  /** The store after the sweep of `page`: each listed appointment swept, every other untouched. */
  function SweptStore(appointments: map<AppointmentId, Appointment>, page: seq<AppointmentId>, now: Time)
    : (r: map<AppointmentId, Appointment>)
    ensures r.Keys == appointments.Keys
    ensures forall k :: k in r ==> r[k] == if k in page then Swept(appointments[k], now) else appointments[k]
  {
    map k | k in appointments :: if k in page then Swept(appointments[k], now) else appointments[k]
  }

  /** The patient listing's filter: the caller's appointments, of the requested status if one is given. */
  predicate InPatientQuery(a: Appointment, memberId: UserId, status: Option<AppointmentStatus>) {
    a.patientId == memberId && (status.None? || a.status == status.value)
  }

  // ---------------------------------------------------------------------
  // The id filter of findAll
  // ---------------------------------------------------------------------

  /** The whitespace `trim` removes (the ASCII part of it). */
  predicate IsSpace(c: char) {
    c == ' ' || c == '\t' || c == '\n' || c == '\r' || c == '\U{000B}' || c == '\U{000C}'
  }

  /** `s` without its leading whitespace. */
  function TrimStart(s: string): (r: string)
    ensures |r| <= |s| && s[|s| - |r|..] == r
    ensures forall i :: 0 <= i < |s| - |r| ==> IsSpace(s[i])
    ensures r == [] || !IsSpace(r[0])
    decreases |s|
  {
    if s != [] && IsSpace(s[0]) then
      var r := TrimStart(s[1..]);
      assert forall i :: 0 < i < |s| ==> s[i] == s[1..][i - 1];
      r
    else s
  }

  /** `s` without its trailing whitespace. */
  function TrimEnd(s: string): (r: string)
    ensures |r| <= |s| && s[..|r|] == r
    ensures forall i :: |r| <= i < |s| ==> IsSpace(s[i])
    ensures r == [] || !IsSpace(r[|r| - 1])
    decreases |s|
  {
    if s != [] && IsSpace(s[|s| - 1]) then
      var r := TrimEnd(s[..|s| - 1]);
      assert forall i :: 0 <= i < |s| - 1 ==> s[i] == s[..|s| - 1][i];
      r
    else s
  }

  /**
   * `s.trim()`: what is left once the leading and the trailing whitespace
   * are removed; `n` is the length of the leading whitespace.
   */
  function Trim(s: string): (r: string)
    ensures |r| <= |s|
    ensures var n := |s| - |TrimStart(s)|;
      && n + |r| <= |s| && s[n..n + |r|] == r
      && (forall j :: 0 <= j < n ==> IsSpace(s[j]))
      && (forall j :: n + |r| <= j < |s| ==> IsSpace(s[j]))
    ensures r == [] || (!IsSpace(r[0]) && !IsSpace(r[|r| - 1]))
  {
    TrimParts(s);
    TrimEnd(TrimStart(s))
  }

  /** The text trim keeps sits between the leading and the trailing whitespace of `s`. */
  lemma {:induction false} TrimParts(s: string)
    ensures var t := TrimStart(s); var n := |s| - |t|; var r := TrimEnd(t);
      && n + |r| <= |s| && s[n..n + |r|] == r
      && (forall j :: n + |r| <= j < |s| ==> IsSpace(s[j]))
  {
    var t := TrimStart(s);
    var n := |s| - |t|;
    PrefixOfSuffix(s, n, |TrimEnd(t)|);
    TrailingSpace(s, n, t, TrimEnd(t));
  }

  /** A prefix of the suffix of `s` from `n` is a slice of `s`. */
  lemma {:induction false} PrefixOfSuffix(s: string, n: nat, m: nat)
    requires n + m <= |s|
    ensures s[n..n + m] == s[n..][..m]
  {
  }

  /** What `TrimEnd` drops from the suffix `t` of `s` is whitespace of `s`. */
  lemma {:induction false} TrailingSpace(s: string, n: nat, t: string, r: string)
    requires n <= |s| && s[n..] == t && r == TrimEnd(t)
    ensures forall j :: n + |r| <= j < |s| ==> IsSpace(s[j])
  {
    forall j | n + |r| <= j < |s| ensures IsSpace(s[j]) {
      assert s[j] == t[j - n];
    }
  }

  /** `sub` occurs in `s` at some position: the filter `{ contains: sub }`. */
  function Contains(s: string, sub: string): (b: bool)
    ensures sub <= s ==> b
    ensures b ==> |sub| <= |s|
    decreases |s|
  {
    sub <= s || (s != [] && Contains(s[1..], sub))
  }

  /** Every string contains the empty string. */
  lemma {:induction false} ContainsEmpty(s: string)
    ensures Contains(s, "")
  {
  }

  /** `sub` sits in `s` at position `i`. */
  predicate OccursAt(s: string, sub: string, i: int) {
    0 <= i <= |s| - |sub| && s[i..i + |sub|] == sub
  }

  /** `Contains` means: `sub` sits at some position of `s`. */
  lemma {:induction false} ContainsAt(s: string, sub: string)
    ensures Contains(s, sub) <==> exists i :: OccursAt(s, sub, i)
    decreases |s|
  {
    if sub <= s {
      assert OccursAt(s, sub, 0);
    } else if s != [] {
      ContainsAt(s[1..], sub);
      assert !OccursAt(s, sub, 0);
      OccursShift(s, sub);
    }
  }

  /** The positions of `sub` in `s[1..]` are those in `s` past the first, moved one back. */
  lemma {:induction false} OccursShift(s: string, sub: string)
    requires s != []
    ensures forall i :: OccursAt(s[1..], sub, i) ==> OccursAt(s, sub, i + 1)
    ensures forall i :: i > 0 && OccursAt(s, sub, i) ==> OccursAt(s[1..], sub, i - 1)
  {
    forall i | OccursAt(s[1..], sub, i) ensures OccursAt(s, sub, i + 1) {
      assert s[i + 1..i + 1 + |sub|] == s[1..][i..i + |sub|];
    }
    forall i | OccursAt(s, sub, i) && i > 0 ensures OccursAt(s[1..], sub, i - 1) {
      assert s[1..][i - 1..i - 1 + |sub|] == s[i..i + |sub|];
    }
  }

  /** The `OR` clause `findAll` ends up with. */
  datatype IdFilter =
    | AnyId                         // neither search nor ids
    | IdContains(text: string)      // `search`, trimmed
    | IdIn(ids: seq<AppointmentId>) // a non-empty `ids` list

  /**
   * The filter `findAll` builds: a non-empty search sets the OR clause, and
   * a non-empty ids list then replaces it.
   */
  function FindAllFilter(search: Option<string>, ids: seq<AppointmentId>): (f: IdFilter)
    ensures ids != [] ==> f == IdIn(ids)
    ensures ids == [] && search.Some? && search.value != "" ==> f == IdContains(Trim(search.value))
    ensures ids == [] && (search.None? || search.value == "") ==> f == AnyId
  {
    var f := if search.Some? && search.value != "" then IdContains(Trim(search.value)) else AnyId;
    if |ids| > 0 then IdIn(ids) else f
  }

  /** A row `findAll` lists: not deleted, and its id passes the filter. */
  function Listed(a: Appointment, f: IdFilter): (b: bool)
    ensures b ==> !a.isDeleted
    ensures f.AnyId? ==> (b <==> !a.isDeleted)
    ensures f.IdContains? ==> (b <==> !a.isDeleted && exists i :: OccursAt(a.id, f.text, i))
    ensures f.IdIn? ==> (b <==> !a.isDeleted && a.id in f.ids)
  {
    && !a.isDeleted
    && match f
       case AnyId => true
       case IdContains(text) => ContainsAt(a.id, text); Contains(a.id, text)
       case IdIn(ids) => a.id in ids
  }

  /** With an ids list the search text plays no part. */
  lemma {:induction false} IdsOverrideSearch(a: Appointment, search1: Option<string>, search2: Option<string>, ids: seq<AppointmentId>)
    requires ids != []
    ensures Listed(a, FindAllFilter(search1, ids)) <==> Listed(a, FindAllFilter(search2, ids))
    ensures Listed(a, FindAllFilter(search1, ids)) <==> !a.isDeleted && a.id in ids
  {
  }

  /** A search of only whitespace trims to "" and lists every row that is not deleted. */
  lemma {:induction false} BlankSearchListsAll(a: Appointment, search: string)
    requires search != "" && forall i :: 0 <= i < |search| ==> IsSpace(search[i])
    ensures Listed(a, FindAllFilter(Some(search), [])) <==> !a.isDeleted
  {
    assert TrimStart(search) == [];
    ContainsEmpty(a.id);
  }

  // ---------------------------------------------------------------------
  // Fresh ids
  // ---------------------------------------------------------------------

  /** A length no id of `ids` exceeds. */
  ghost function MaxLength(ids: set<AppointmentId>): (n: nat)
    ensures forall s :: s in ids ==> |s| <= n
    decreases ids
  {
    if ids == {} then 0
    else
      var x :| x in ids;
      var m := MaxLength(ids - {x});
      if |x| > m then |x| else m
  }

  /** The table can always hand out an id it has not used. */
  lemma {:induction false} FreshIdExists(ids: set<AppointmentId>)
    ensures exists id :: id !in ids
  {
    var s := seq(MaxLength(ids) + 1, _ => 'a');
    assert s !in ids;
  }

  // ---------------------------------------------------------------------
  // The store
  // ---------------------------------------------------------------------

  /** Every appointment of the table is filed under its own id. */
  predicate FiledById(appointments: map<AppointmentId, Appointment>) {
    forall k :: k in appointments ==> appointments[k].id == k
  }

  class AppointmentStore {
    var patients: map<UserId, Patient>
    var doctors: map<UserId, Doctor>
    var appointments: map<AppointmentId, Appointment>
    var notifications: seq<Notification>

    /** Every appointment is filed under its own id. */
    ghost predicate Valid()
      reads this
    {
      FiledById(appointments)
    }

    constructor (patients0: map<UserId, Patient>, doctors0: map<UserId, Doctor>)
      ensures Valid()
      ensures patients == patients0 && doctors == doctors0
      ensures appointments == map[] && notifications == []
    {
      patients := patients0;
      doctors := doctors0;
      appointments := map[];
      notifications := [];
    }

    /** `checkAppointmentExist`: the appointment with this id, unless there is none or it is deleted. */
    function CheckAppointmentExist(id: AppointmentId): (r: Option<Appointment>)
      reads this
      requires Valid()
      ensures r.Some? <==> id in appointments && !appointments[id].isDeleted
      ensures r.Some? ==> r.value == appointments[id] && r.value.id == id
    {
      if id in appointments && !appointments[id].isDeleted then Some(appointments[id]) else None
    }

    /** The ids `findAll` lists for a search and an ids list (order and paging not modelled). */
    function FindAll(search: Option<string>, ids: seq<AppointmentId>): (r: set<AppointmentId>)
      reads this
      ensures r <= appointments.Keys
      ensures forall k :: k in r ==> !appointments[k].isDeleted
      ensures forall k :: k in appointments ==> (k in r <==> Listed(appointments[k], FindAllFilter(search, ids)))
    {
      set k | k in appointments && Listed(appointments[k], FindAllFilter(search, ids))
    }

    /** Insert a new appointment under an id the table has not used. */
    method Insert(details: Details, status: AppointmentStatus, patientId: UserId, doctorId: UserId,
                  createdBy: UserId) returns (a: Appointment)
      requires Valid()
      modifies this
      ensures Valid()
      ensures a.id !in old(appointments)
      ensures a == Appointment(a.id, details, status, patientId, doctorId, createdBy, None, false, None)
      ensures appointments == old(appointments)[a.id := a]
      ensures patients == old(patients) && doctors == old(doctors) && notifications == old(notifications)
    {
      FreshIdExists(appointments.Keys);
      var id: AppointmentId :| id !in appointments;
      a := Appointment(id, details, status, patientId, doctorId, createdBy, None, false, None);
      appointments := appointments[id := a];
    }

    /**
     * `create`: a patient books with their doctor. The doctor is notified
     * first, then the appointment is inserted as CREATED. A caller who is not
     * a patient makes the request fail before anything is written.
     */
    method Create(memberId: UserId, dto: Details) returns (r: Option<Appointment>)
      requires Valid()
      modifies this
      ensures Valid()
      ensures patients == old(patients) && doctors == old(doctors)
      ensures memberId !in patients ==>
        r == None && appointments == old(appointments) && notifications == old(notifications)
      ensures memberId in patients ==>
        && r.Some?
        && var p := patients[memberId];
           var a := r.value;
           && a.id !in old(appointments)
           && a == Appointment(a.id, dto, Created, memberId, p.doctorId, memberId, None, false, None)
           && appointments == old(appointments)[a.id := a]
           && notifications == old(notifications) +
                [Notification(AppointmentType, AppointmentBooked, p.doctorId, p.fullName, "", false)]
           && CheckAppointmentExist(a.id) == Some(a)
    {
      if memberId !in patients {
        return None;
      }
      var patient := patients[memberId];
      notifications := notifications +
        [Notification(AppointmentType, AppointmentBooked, patient.doctorId, patient.fullName, "", false)];
      var a := Insert(dto, Created, memberId, patient.doctorId, memberId);
      r := Some(a);
    }

    /**
     * `post`: a doctor books for patient `id`; the appointment starts out
     * APPROVED. The caller's name is looked up in the patient table, so a
     * caller who is not there makes the request fail before anything is written.
     */
    method Post(memberId: UserId, id: UserId, dto: Details) returns (r: Option<Appointment>)
      requires Valid()
      modifies this
      ensures Valid()
      ensures patients == old(patients) && doctors == old(doctors)
      ensures memberId !in patients ==>
        r == None && appointments == old(appointments) && notifications == old(notifications)
      ensures memberId in patients ==>
        && r.Some?
        && var a := r.value;
           && a.id !in old(appointments)
           && a == Appointment(a.id, dto, Approved, id, memberId, memberId, None, false, None)
           && appointments == old(appointments)[a.id := a]
           && notifications == old(notifications) +
                [Notification(AppointmentType, AppointmentBooked, id, patients[memberId].fullName, "", false)]
    {
      if memberId !in patients {
        return None;
      }
      var doctor := patients[memberId];
      notifications := notifications +
        [Notification(AppointmentType, AppointmentBooked, id, doctor.fullName, "", false)];
      var a := Insert(dto, Approved, id, memberId, memberId);
      r := Some(a);
    }

    /**
     * The common shape of `approve` and `refuse`: the caller must be a
     * doctor and the appointment must exist (deleted or not); the patient is
     * notified and the status is overwritten, whatever it was.
     */
    method Decide(memberId: UserId, id: AppointmentId, status: AppointmentStatus, title: Title)
      returns (r: Option<Appointment>)
      requires Valid()
      modifies this
      ensures Valid()
      ensures patients == old(patients) && doctors == old(doctors)
      ensures memberId !in doctors || id !in old(appointments) ==>
        r == None && appointments == old(appointments) && notifications == old(notifications)
      ensures memberId in doctors && id in old(appointments) ==>
        var a := old(appointments)[id];
        && r == Some(a.(status := status, updatedBy := Some(memberId)))
        && appointments == old(appointments)[id := r.value]
        && notifications == old(notifications) +
             [Notification(AppointmentType, title, a.patientId, doctors[memberId].fullName, "", false)]
    {
      if memberId !in doctors {
        return None;
      }
      var doctor := doctors[memberId];
      if id !in appointments {
        return None;
      }
      var appointment := appointments[id];
      notifications := notifications +
        [Notification(AppointmentType, title, appointment.patientId, doctor.fullName, "", false)];
      var data := appointment.(status := status, updatedBy := Some(memberId));
      appointments := appointments[id := data];
      r := Some(data);
    }

    /** `approve`: a doctor accepts an appointment. */
    method Approve(memberId: UserId, id: AppointmentId) returns (r: Option<Appointment>)
      requires Valid()
      modifies this
      ensures Valid()
      ensures patients == old(patients) && doctors == old(doctors)
      ensures memberId !in doctors || id !in old(appointments) ==>
        r == None && appointments == old(appointments) && notifications == old(notifications)
      ensures memberId in doctors && id in old(appointments) ==>
        var a := old(appointments)[id];
        && r == Some(a.(status := Approved, updatedBy := Some(memberId)))
        && appointments == old(appointments)[id := r.value]
        && notifications == old(notifications) +
             [Notification(AppointmentType, AppointmentAccepted, a.patientId, doctors[memberId].fullName, "", false)]
    {
      r := Decide(memberId, id, Approved, AppointmentAccepted);
    }

    /** `refuse`: a doctor turns an appointment down. */
    method Refuse(memberId: UserId, id: AppointmentId) returns (r: Option<Appointment>)
      requires Valid()
      modifies this
      ensures Valid()
      ensures patients == old(patients) && doctors == old(doctors)
      ensures memberId !in doctors || id !in old(appointments) ==>
        r == None && appointments == old(appointments) && notifications == old(notifications)
      ensures memberId in doctors && id in old(appointments) ==>
        var a := old(appointments)[id];
        && r == Some(a.(status := Refused, updatedBy := Some(memberId)))
        && appointments == old(appointments)[id := r.value]
        && notifications == old(notifications) +
             [Notification(AppointmentType, AppointmentRejected, a.patientId, doctors[memberId].fullName, "", false)]
    {
      r := Decide(memberId, id, Refused, AppointmentRejected);
    }

    /**
     * `cancel`: the appointment (deleted or not) becomes CANCELED. Both the
     * "patient" and the "doctor" lookups read the patient table with the
     * caller's id, so a patient caller sends two notifications (to their
     * doctor, then to the appointment's doctor) and any other caller none.
     */
    method Cancel(memberId: UserId, id: AppointmentId) returns (r: Option<Appointment>)
      requires Valid()
      modifies this
      ensures Valid()
      ensures patients == old(patients) && doctors == old(doctors)
      ensures id !in old(appointments) ==>
        r == None && appointments == old(appointments) && notifications == old(notifications)
      ensures id in old(appointments) ==>
        var a := old(appointments)[id];
        && r == Some(a.(status := Canceled, updatedBy := Some(memberId)))
        && appointments == old(appointments)[id := r.value]
        && notifications == old(notifications) +
             if memberId in patients then
               [Notification(AppointmentType, AppointmentCanceled, patients[memberId].doctorId,
                             patients[memberId].fullName, "", false),
                Notification(AppointmentType, AppointmentCanceled, a.doctorId,
                             patients[memberId].fullName, "", false)]
             else []
      ensures |notifications| == |old(notifications)| + if id in old(appointments) && memberId in patients then 2 else 0
    {
      var patient := if memberId in patients then Some(patients[memberId]) else None;
      var doctor := if memberId in patients then Some(patients[memberId]) else None;
      if id !in appointments {
        return None;
      }
      var appointment := appointments[id];
      if patient.Some? {
        notifications := notifications +
          [Notification(AppointmentType, AppointmentCanceled, patient.value.doctorId, patient.value.fullName, "", false)];
      }
      if doctor.Some? {
        notifications := notifications +
          [Notification(AppointmentType, AppointmentCanceled, appointment.doctorId, doctor.value.fullName, "", false)];
      }
      var data := appointment.(status := Canceled, updatedBy := Some(memberId));
      appointments := appointments[id := data];
      r := Some(data);
    }

    /**
     * `update`: the defined fields of the patch are written over the
     * appointment (deleted or not) and the updater is recorded; the status,
     * the parties and the deletion flag stay. A missing id fails.
     */
    method Update(memberId: UserId, id: AppointmentId, dto: Patch) returns (r: Option<Appointment>)
      requires Valid()
      modifies this
      ensures Valid()
      ensures patients == old(patients) && doctors == old(doctors) && notifications == old(notifications)
      ensures id !in old(appointments) ==> r == None && appointments == old(appointments)
      ensures id in old(appointments) ==>
        var a := old(appointments)[id];
        && r == Some(a.(details := Patched(a.details, dto), updatedBy := Some(memberId)))
        && appointments == old(appointments)[id := r.value]
        && r.value.status == a.status && r.value.patientId == a.patientId && r.value.doctorId == a.doctorId
        && r.value.isDeleted == a.isDeleted && r.value.deletedBy == a.deletedBy
    {
      if id !in appointments {
        return None;
      }
      var appointment := appointments[id];
      var data := appointment.(details := Patched(appointment.details, dto), updatedBy := Some(memberId));
      appointments := appointments[id := data];
      r := Some(data);
    }

    /**
     * The body of `delete`, given what it passes to the existence check: a
     * failed or empty check ends the request; otherwise the appointment is
     * soft-deleted, its status kept.
     */
    method DeleteWith(memberId: UserId, arg: IdArgument) returns (r: Option<Appointment>)
      requires Valid()
      modifies this
      ensures Valid()
      ensures patients == old(patients) && doctors == old(doctors) && notifications == old(notifications)
      ensures old(CheckExistWith(arg)) != Success(old(CheckAppointmentExist(arg.id))) ||
              old(CheckAppointmentExist(arg.id)).None? ==>
        r == None && appointments == old(appointments)
      ensures old(CheckExistWith(arg)) == Success(old(CheckAppointmentExist(arg.id))) &&
              old(CheckAppointmentExist(arg.id)).Some? ==>
        var a := old(appointments)[arg.id];
        && r == Some(a.(isDeleted := true, deletedBy := Some(memberId)))
        && appointments == old(appointments)[arg.id := r.value]
    {
      var exist := CheckExistWith(arg);
      if exist.Failure? || exist.value.None? {
        return None;
      }
      var id := arg.id;
      var data := appointments[id].(isDeleted := true, deletedBy := Some(memberId));
      appointments := appointments[id := data];
      r := Some(data);
    }

    /**
     * `delete`, with the existence check called on the id as intended: an
     * appointment that exists and is not deleted is soft-deleted (its status
     * kept); otherwise the request fails.
     */
    method Delete(memberId: UserId, id: AppointmentId) returns (r: Option<Appointment>)
      requires Valid()
      modifies this
      ensures Valid()
      ensures patients == old(patients) && doctors == old(doctors) && notifications == old(notifications)
      ensures old(CheckAppointmentExist(id)).None? ==> r == None && appointments == old(appointments)
      ensures old(CheckAppointmentExist(id)).Some? ==>
        var a := old(appointments)[id];
        && r == Some(a.(isDeleted := true, deletedBy := Some(memberId)))
        && appointments == old(appointments)[id := r.value]
        && r.value.status == a.status
      ensures CheckAppointmentExist(id) == None
    {
      r := DeleteWith(memberId, IdString(id));
    }

    /**
     * `delete` as written: it passes the object `{ id }` where the existence
     * check expects the id itself, the data store refuses a filter of that
     * shape, the empty `catch` swallows the error, and nothing is deleted.
     */
    method DeleteAsWritten(memberId: UserId, id: AppointmentId) returns (r: Option<Appointment>)
      requires Valid()
      modifies this
      ensures Valid()
      ensures r == None
      ensures appointments == old(appointments) && notifications == old(notifications)
      ensures patients == old(patients) && doctors == old(doctors)
    {
      r := DeleteWith(memberId, IdObject(id));
    }

    /**
     * `checkAppointmentExist` called with `v`: an id string filters as
     * intended, while an object in the `id` position is a filter the data
     * store rejects.
     */
    function CheckExistWith(v: IdArgument): (r: Result<Option<Appointment>, string>)
      reads this
      requires Valid()
      ensures v.IdString? ==> r == Success(CheckAppointmentExist(v.id))
      ensures v.IdObject? ==> r.Failure?
    {
      match v
      case IdString(id) => Success(CheckAppointmentExist(id))
      case IdObject(_) => Failure("invalid filter on id")
    }

    /**
     * The callback the sweep maps over the page: a row due for completion is
     * stored as COMPLETED and the updated row returned; any other row is
     * returned as it is. The stored row is the fetched one, or already swept.
     */
    method SweepItem(item: Appointment, now: Time) returns (r: Appointment)
      requires item.id in appointments
      requires appointments[item.id] == item || appointments[item.id] == Swept(item, now)
      modifies this
      ensures r == Swept(item, now)
      ensures appointments == old(appointments)[item.id := r]
      ensures patients == old(patients) && doctors == old(doctors) && notifications == old(notifications)
    {
      if item.details.dateMeeting < now && item.status == Approved {
        var itemUpdate := appointments[item.id].(status := Completed);
        appointments := appointments[item.id := itemUpdate];
        return itemUpdate;
      }
      return item;
    }

    /**
     * `getAppointmentPatient`'s sweep over the fetched page: each row that is
     * APPROVED with its meeting time past is stored as COMPLETED and returned
     * updated; every other row is returned as fetched. The page keeps its
     * length and order.
     */
    method GetAppointmentPatient(memberId: UserId, status: Option<AppointmentStatus>,
                                 data: seq<Appointment>, now: Time) returns (newData: seq<Appointment>)
      requires Valid()
      // The page is rows of the table as fetched; `InPatientQuery` records
      // which rows the listing's query selects, and no proof depends on it.
      requires forall i :: 0 <= i < |data| ==>
        data[i].id in appointments && appointments[data[i].id] == data[i] &&
        InPatientQuery(data[i], memberId, status)
      modifies this
      ensures Valid()
      ensures patients == old(patients) && doctors == old(doctors) && notifications == old(notifications)
      ensures |newData| == |data|
      ensures newData == SweptPage(data, now)
      ensures appointments == SweptStore(old(appointments), Ids(data), now)
    {
      newData := [];
      var i := 0;
      while i < |data|
        invariant 0 <= i <= |data|
        invariant patients == old(patients) && doctors == old(doctors) && notifications == old(notifications)
        invariant |newData| == i
        invariant newData == SweptPage(data[..i], now)
        invariant appointments == SweptStore(old(appointments), Ids(data[..i]), now)
      {
        var item := data[i];
        SweptStoreAt(old(appointments), Ids(data[..i]), item.id, now);
        SweepAdvance(old(appointments), data, i, now);
        var itemUpdate := SweepItem(item, now);
        newData := newData + [itemUpdate];
        i := i + 1;
      }
      assert data[..i] == data;
      SweptStoreFiled(old(appointments), Ids(data), now);
    }
  }

  /** The argument passed to `checkAppointmentExist`: the id, or an object holding it. */
  datatype IdArgument = IdString(id: AppointmentId) | IdObject(id: AppointmentId)

  /** The ids of a page of rows, in order. */
  function Ids(page: seq<Appointment>): (r: seq<AppointmentId>)
    ensures |r| == |page|
    ensures forall i :: 0 <= i < |page| ==> r[i] == page[i].id
  {
    if page == [] then [] else [page[0].id] + Ids(page[1..])
  }

  lemma {:induction false} IdsAppend(a: seq<Appointment>, b: seq<Appointment>)
    ensures Ids(a + b) == Ids(a) + Ids(b)
    decreases |a|
  {
    if a == [] {
      assert a + b == b;
    } else {
      assert (a + b)[1..] == a[1..] + b;
      IdsAppend(a[1..], b);
    }
  }

  /** The sweep keeps every appointment under its own id. */
  lemma {:induction false} SweptStoreFiled(start: map<AppointmentId, Appointment>, done: seq<AppointmentId>, now: Time)
    requires FiledById(start)
    ensures FiledById(SweptStore(start, done, now))
  {
  }

  /** The row at `id` while the sweep is under way: as fetched, or already swept. */
  lemma {:induction false} SweptStoreAt(start: map<AppointmentId, Appointment>, done: seq<AppointmentId>, id: AppointmentId, now: Time)
    requires id in start
    ensures id in SweptStore(start, done, now)
    ensures SweptStore(start, done, now)[id] == start[id] || SweptStore(start, done, now)[id] == Swept(start[id], now)
  {
  }

  /** Sweeping row `i` of the page extends both the swept page and the swept store by that row. */
  lemma {:induction false} SweepAdvance(start: map<AppointmentId, Appointment>, data: seq<Appointment>, i: nat, now: Time)
    requires i < |data| && data[i].id in start
    ensures SweptPage(data[..i], now) + [Swept(data[i], now)] == SweptPage(data[..i + 1], now)
    ensures SweptStore(start, Ids(data[..i]), now)[data[i].id := Swept(start[data[i].id], now)] ==
            SweptStore(start, Ids(data[..i + 1]), now)
  {
    assert data[..i + 1][..i] == data[..i];
    assert data[..i + 1] == data[..i] + [data[i]];
    IdsAppend(data[..i], [data[i]]);
    assert Ids([data[i]]) == [data[i].id] by {
      assert [data[i]][1..] == [];
    }
    assert Ids(data[..i + 1]) == Ids(data[..i]) + [data[i].id];
    SweepStep(start, Ids(data[..i]), data[i].id, now);
  }

  /** One more row of the sweep: the store is swept on one more id. */
  lemma {:induction false} SweepStep(start: map<AppointmentId, Appointment>, done: seq<AppointmentId>, id: AppointmentId, now: Time)
    requires id in start
    ensures SweptStore(start, done, now)[id := Swept(start[id], now)] == SweptStore(start, done + [id], now)
  {
    var before := SweptStore(start, done, now);
    var after := before[id := Swept(start[id], now)];
    var goal := SweptStore(start, done + [id], now);
    assert after.Keys == goal.Keys;
    forall k | k in after ensures after[k] == goal[k] {
      if k == id {
        SweptIdempotent(start[id], now);
      }
    }
  }
}
