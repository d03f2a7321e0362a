/** The appointment endpoints: booking with the practitioner's slot length,
    and the cancel authorisation (who counts as the practitioner, and
    NotFound for everyone else). */
module AppointmentsController {
  import opened Base
  import opened Clock
  import U = Users
  import P = Practitioners
  import A = Appointments

  /** Who may cancel: the appointment must exist, and the caller must own its
      practitioner or have booked it. The value says whether the caller
      cancels as the practitioner. Outsiders get NotFound, never Forbidden. */
  function CancelAccess(found: Option<A.Appointment>, ids: seq<Id>, userId: Id): (r: Result<bool>)
    ensures found.None? ==> r == Err(NotFound)
    ensures r.Ok? <==> found.Some? && (found.value.practitionerId in ids || found.value.userId == userId)
    ensures r.Ok? ==> (r.value <==> found.value.practitionerId in ids)
    ensures r.Err? ==> r.error == NotFound
  {
    if found.None? then Err(NotFound)
    else
      var isDoctor := found.value.practitionerId in ids;
      if !isDoctor && found.value.userId != userId then Err(NotFound) else Ok(isDoctor)
  }

  /** A patient who owns no practitioner cancels as the patient. */
  lemma PatientCancelsAsPatient(ap: A.Appointment, userId: Id)
    requires ap.userId == userId
    ensures CancelAccess(Some(ap), [], userId) == Ok(false)
  {
  }

  class AppointmentsController {
    const users: U.UsersService
    const practitioners: P.PractitionersService
    const appointments: A.AppointmentsService

    constructor (users: U.UsersService, practitioners: P.PractitionersService, appointments: A.AppointmentsService)
      ensures this.users == users && this.practitioners == practitioners && this.appointments == appointments
    {
      this.users := users;
      this.practitioners := practitioners;
      this.appointments := appointments;
    }

    /** Books for the caller, with the slot length stored on the practitioner. */
    method CreateAppointment(uid: string, request: A.CreateAppointmentRequest, now: Instant,
                             meeting: Option<A.Meeting>) returns (r: Result<A.Appointment>)
      requires appointments.Valid()
      modifies appointments`rows, appointments`nextId
      ensures appointments.Valid()
      ensures !users.reachable ==> r == Err(InternalServerError) && appointments.rows == old(appointments.rows)
      ensures users.reachable && U.FindByUid(users.rows, uid).None? ==>
        r == Err(NotFound) && appointments.rows == old(appointments.rows)
      ensures users.reachable && U.FindByUid(users.rows, uid).Some? && !practitioners.reachable ==>
        r == Err(InternalServerError) && appointments.rows == old(appointments.rows)
      ensures (users.reachable && U.FindByUid(users.rows, uid).Some? && practitioners.reachable &&
        P.FindById(practitioners.rows, request.practitionerId).None?) ==>
        r == Err(NotFound) && appointments.rows == old(appointments.rows)
      ensures r.Ok? ==>
        var p := practitioners.rows[P.FindById(practitioners.rows, request.practitionerId).value];
        && U.FindByUid(users.rows, uid).Some?
        && r.value.userId == users.rows[U.FindByUid(users.rows, uid).value].id
        && r.value.endTime == AddMinutes(request.startTime, p.appointmentTimeSlot)
        && r.value.status == A.Confirmed
        && appointments.rows == old(appointments.rows) + [r.value]
    {
      var userId := users.GetUserIdForUid(uid);
      if userId.Err? {
        return Err(userId.error);
      }
      var practitioner := practitioners.GetPractitionerById(request.practitionerId);
      if practitioner.Err? {
        return Err(practitioner.error);
      }
      r := appointments.CreateAppointment(userId.value, request, practitioner.value.appointmentTimeSlot, now, meeting);
    }

    /** Cancels for the caller after the access decision; the service is told
        who acts and whether as the practitioner. */
    method CancelAppointment(uid: string, id: Id, reason: string, now: Instant, saveSucceeds: bool)
      returns (r: Result<()>)
      requires appointments.Valid()
      modifies appointments`rows
      ensures appointments.Valid()
      ensures !users.reachable ==> r == Err(InternalServerError) && appointments.rows == old(appointments.rows)
      ensures users.reachable && U.FindByUid(users.rows, uid).None? ==>
        r == Err(NotFound) && appointments.rows == old(appointments.rows)
      ensures users.reachable && U.FindByUid(users.rows, uid).Some? ==>
        var userId := users.rows[U.FindByUid(users.rows, uid).value].id;
        var found := if appointments.reachable then A.Found(old(appointments.rows), id) else None;
        && (found.None? ==> r == Err(NotFound) && appointments.rows == old(appointments.rows))
        && (found.Some? && !practitioners.reachable ==>
              r == Err(InternalServerError) && appointments.rows == old(appointments.rows))
        && (found.Some? && practitioners.reachable ==>
              var access := CancelAccess(found, P.IdsFor(practitioners.rows, Some(userId), false), userId);
              && (access.Err? ==> r == Err(NotFound) && appointments.rows == old(appointments.rows))
              && (access.Ok? ==>
                    var verdict := A.CancelCheck(reason, true, found, now);
                    && (verdict.Some? ==> r == Err(verdict.value) && appointments.rows == old(appointments.rows))
                    && (verdict.None? ==> r == Ok(()))
                    && (verdict.None? && saveSucceeds ==>
                          appointments.rows == old(appointments.rows)[A.FindById(old(appointments.rows), id).value :=
                            A.CancelledRow(found.value, userId, access.value, reason)])))
    {
      var userId := users.GetUserIdForUid(uid);
      if userId.Err? {
        return Err(userId.error);
      }
      var appointment := appointments.GetAppointmentById(id);
      if appointment.None? {
        return Err(NotFound);
      }
      var ids := practitioners.GetPractitionersIdsForUserId(Some(userId.value), false);
      if ids.Err? {
        return Err(ids.error);
      }
      var access := CancelAccess(appointment, ids.value, userId.value);
      if access.Err? {
        return Err(access.error);
      }
      var cancelled := appointments.CancelAppointment(id, userId.value, access.value, reason, now, saveSucceeds);
      if cancelled.Err? {
        return Err(cancelled.error);
      }
      return Ok(());
    }
  }
}
