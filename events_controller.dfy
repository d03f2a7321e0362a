/** The practitioner-event endpoints: who may create, update and delete an
    event, and the event as returned after creation. */
module EventsController {
  import opened Base
  import opened Clock
  import U = Users
  import P = Practitioners
  import E = Events

  /** The created event as returned: every field but the creator. */
  datatype EventDto = EventDto(
    id: Id,
    title: string,
    createdAt: Instant,
    description: Option<string>,
    startTime: Instant,
    endTime: Instant,
    hexColor: string,
    isAllDay: bool,
    isConfirmed: bool,
    location: Option<string>,
    practitionerId: Id)

  function DtoOf(ev: E.Event): (d: EventDto)
    ensures d.id == ev.id && d.title == ev.title && d.createdAt == ev.createdAt
    ensures d.description == ev.description && d.location == ev.location && d.hexColor == ev.hexColor
    ensures d.startTime == ev.startTime && d.endTime == ev.endTime
    ensures d.isAllDay == ev.isAllDay && d.isConfirmed == ev.isConfirmed && d.practitionerId == ev.practitionerId
  {
    EventDto(ev.id, ev.title, ev.createdAt, ev.description, ev.startTime, ev.endTime, ev.hexColor,
             ev.isAllDay, ev.isConfirmed, ev.location, ev.practitionerId)
  }

  /** Only events that differ in the creator give the same response. */
  lemma DtoOfInjective(a: E.Event, b: E.Event)
    requires DtoOf(a) == DtoOf(b)
    ensures a == b.(createdById := a.createdById)
  {
  }

  /** Creating needs the practitioner among the caller's; otherwise NotFound. */
  function CreateAccess(pid: Id, ids: seq<Id>): (r: Option<HttpError>)
    ensures r.None? <==> pid in ids
    ensures r.Some? ==> r.value == NotFound
  {
    if pid !in ids then Some(NotFound) else None
  }

  /** Changing an event: an owner that cannot be resolved is NotFound; an
      owner the caller does not act for is Forbidden. */
  function ChangeAccess(owner: Option<Id>, ids: seq<Id>): (r: Option<HttpError>)
    ensures owner.None? ==> r == Some(NotFound)
    ensures owner.Some? ==> (r.None? <==> owner.value in ids)
    ensures owner.Some? && r.Some? ==> r.value == Forbidden
  {
    if owner.None? then Some(NotFound)
    else if owner.value !in ids then Some(Forbidden)
    else None
  }

  /** The owner lookup swallows store failures, so a failing event table
      reads as a missing event. */
  lemma UnreachableReadsAsMissing(owner: Option<Id>, ids: seq<Id>)
    requires owner.None?
    ensures ChangeAccess(owner, ids) == Some(NotFound)
  {
  }

  class EventsController {
    const users: U.UsersService
    const practitioners: P.PractitionersService
    const events: E.EventStore

    constructor (users: U.UsersService, practitioners: P.PractitionersService, events: E.EventStore)
      ensures this.users == users && this.practitioners == practitioners && this.events == events
    {
      this.users := users;
      this.practitioners := practitioners;
      this.events := events;
    }

    /** The practitioners the caller acts for, as the controller reads them. */
    function CallerIds(uid: string): seq<Id>
      reads users, practitioners
      requires U.FindByUid(users.rows, uid).Some?
    {
      P.IdsFor(practitioners.rows, Some(users.rows[U.FindByUid(users.rows, uid).value].id), false)
    }

    method CreatePractitionerEvent(uid: string, req: E.CreateEventRequest, now: Instant) returns (r: Result<EventDto>)
      requires events.Valid()
      modifies events`rows, events`nextId
      ensures events.Valid()
      ensures r.Err? ==> events.rows == old(events.rows)
      ensures !users.reachable ==> r == Err(InternalServerError)
      ensures users.reachable && U.FindByUid(users.rows, uid).None? ==> r == Err(NotFound)
      ensures users.reachable && U.FindByUid(users.rows, uid).Some? ==>
        && (!practitioners.reachable ==> r == Err(InternalServerError))
        && (practitioners.reachable && req.practitionerId !in CallerIds(uid) ==> r == Err(NotFound))
      ensures r.Ok? ==>
        && users.reachable && U.FindByUid(users.rows, uid).Some? && practitioners.reachable
        && req.practitionerId in CallerIds(uid)
        && |events.rows| == |old(events.rows)| + 1
        && r.value == DtoOf(events.rows[|events.rows| - 1])
        && events.rows[|events.rows| - 1].createdById == users.rows[U.FindByUid(users.rows, uid).value].id
      ensures r.Ok? ==>
        var end := if req.isAllDay then E.AllDayEnd(req.startTime, req.endTime) else req.endTime;
        events.rows == old(events.rows) + [E.NewEvent(old(events.nextId), users.rows[U.FindByUid(users.rows, uid).value].id, req, end, now)]
    {
      var user := users.GetUserForUid(uid);
      if user.Err? {
        return Err(user.error);
      }
      var ids := practitioners.GetPractitionersIdsForUserId(Some(user.value.id), false);
      if ids.Err? {
        return Err(ids.error);
      }
      var access := CreateAccess(req.practitionerId, ids.value);
      if access.Some? {
        return Err(access.value);
      }
      var ev := events.CreatePractitionerEvent(user.value.id, req, now);
      if ev.Err? {
        return Err(ev.error);
      }
      return Ok(DtoOf(ev.value));
    }

    /** Resolves the event's owner and the caller's practitioners, then
        decides; the service is reached only when the caller owns the event. */
    method Authorise(uid: string, eventId: Id) returns (r: Option<HttpError>)
      ensures !users.reachable ==> r == Some(InternalServerError)
      ensures users.reachable && U.FindByUid(users.rows, uid).None? ==> r == Some(NotFound)
      ensures users.reachable && U.FindByUid(users.rows, uid).Some? ==>
        var owner := if events.reachable && E.FindById(events.rows, eventId).Some?
          then Some(events.rows[E.FindById(events.rows, eventId).value].practitionerId) else None;
        && (owner.None? ==> r == Some(NotFound))
        && (owner.Some? && !practitioners.reachable ==> r == Some(InternalServerError))
        && (owner.Some? && practitioners.reachable ==> r == ChangeAccess(owner, CallerIds(uid)))
    {
      var userId := users.GetUserIdForUid(uid);
      if userId.Err? {
        return Some(userId.error);
      }
      var owner := events.GetPractitionerIdForEventId(eventId);
      if owner.None? {
        return Some(NotFound);
      }
      var ids := practitioners.GetPractitionersIdsForUserId(Some(userId.value), false);
      if ids.Err? {
        return Some(ids.error);
      }
      return ChangeAccess(owner, ids.value);
    }

    method UpdatePractitionerEvent(uid: string, eventId: Id, req: E.UpdateEventRequest, now: Instant)
      returns (r: Result<()>)
      requires events.Valid()
      modifies events`rows
      ensures events.Valid()
      ensures r.Err? ==> events.rows == old(events.rows)
      ensures r.Ok? ==>
        && users.reachable && U.FindByUid(users.rows, uid).Some? && practitioners.reachable
        && E.FindById(old(events.rows), eventId).Some?
        && old(events.rows)[E.FindById(old(events.rows), eventId).value].practitionerId in CallerIds(uid)
        && var k := E.FindById(old(events.rows), eventId).value;
           var interval := E.UpdatedInterval(old(events.rows)[k], req);
           events.rows == old(events.rows)[k := E.Merged(old(events.rows)[k], req).(startTime := interval.0, endTime := interval.1)]
      ensures (users.reachable && U.FindByUid(users.rows, uid).Some? && practitioners.reachable && events.reachable &&
        E.FindById(old(events.rows), eventId).Some? &&
        old(events.rows)[E.FindById(old(events.rows), eventId).value].practitionerId !in CallerIds(uid)) ==>
        r == Err(Forbidden)
    {
      var denied := Authorise(uid, eventId);
      if denied.Some? {
        return Err(denied.value);
      }
      var updated := events.UpdatePractitionerEvent(eventId, req, now);
      if updated.Err? {
        return Err(updated.error);
      }
      return Ok(());
    }

    method DeletePractitionerEvent(uid: string, eventId: Id) returns (r: Result<()>)
      requires events.Valid()
      modifies events`rows
      ensures events.Valid()
      ensures r.Err? ==> events.rows == old(events.rows)
      ensures r.Ok? <==>
        && users.reachable && U.FindByUid(users.rows, uid).Some? && practitioners.reachable && events.reachable
        && E.FindById(old(events.rows), eventId).Some?
        && old(events.rows)[E.FindById(old(events.rows), eventId).value].practitionerId in CallerIds(uid)
      ensures r.Ok? ==>
        var k := E.FindById(old(events.rows), eventId).value;
        events.rows == old(events.rows)[..k] + old(events.rows)[k + 1..]
      ensures (users.reachable && U.FindByUid(users.rows, uid).Some? && practitioners.reachable && events.reachable &&
        E.FindById(old(events.rows), eventId).Some? &&
        old(events.rows)[E.FindById(old(events.rows), eventId).value].practitionerId !in CallerIds(uid)) ==>
        r == Err(Forbidden)
    {
      var denied := Authorise(uid, eventId);
      if denied.Some? {
        return Err(denied.value);
      }
      r := events.DeletePractitionerEvent(eventId);
    }
  }
}
