/** A practitioner's own calendar events: creation and update with the
    interval checks, all-day normalisation and the confirmed-event overlap
    query; lookup and deletion. */
module Events {
  import opened Base
  import opened Clock
  import opened Text

  /** The colour an event gets when none is sent (the column default). */
  const DefaultHexColor: string := "#EDED85"

  datatype Event = Event(
    id: Id,
    title: string,
    description: Option<string>,
    location: Option<string>,
    practitionerId: Id,
    hexColor: string,
    createdAt: Instant,
    startTime: Instant,
    endTime: Instant,
    createdById: Id,
    isConfirmed: bool,
    isAllDay: bool)

  datatype CreateEventRequest = CreateEventRequest(
    practitionerId: Id,
    title: string,
    description: Option<string>,
    hexColor: Option<string>,
    location: Option<string>,
    startTime: Instant,
    endTime: Instant,
    isConfirmed: bool,
    isAllDay: bool)

  /** An update; None is a field left out. */
  datatype UpdateEventRequest = UpdateEventRequest(
    title: Option<string>,
    description: Option<string>,
    hexColor: Option<string>,
    location: Option<string>,
    startTime: Option<Instant>,
    endTime: Option<Instant>,
    isConfirmed: Option<bool>,
    isAllDay: Option<bool>)

  // --------------------------------------------------- all-day normalisation

  /** The end of an all-day event: the end's own date and seconds with the
      start's hour and minute, one second earlier. */
  function AllDayEnd(start: Instant, end: Instant): (r: Instant)
    ensures UtcDayStart(r + 1) == UtcDayStart(end)
    ensures UtcClock(r + 1) == UtcClock(start)
    ensures (r + 1) % 60 == end % 60
  {
    SetClock(end, UtcClock(start)) - 1
  }

  /** On one UTC day the normalised end falls before the start exactly when
      the end's seconds do not exceed the start's; with whole-minute times it
      always lands one second before the start. */
  lemma AllDayEndSameDay(start: Instant, end: Instant)
    requires UtcDayStart(start) == UtcDayStart(end)
    ensures AllDayEnd(start, end) < start <==> end % 60 <= start % 60
    ensures start % 60 == 0 && end % 60 == 0 ==> AllDayEnd(start, end) == start - 1
  {
    var c := UtcClock(start);
    assert start == UtcDayStart(start) + MinuteOfDay(c) * 60 + start % 60;
    assert AllDayEnd(start, end) == UtcDayStart(end) + MinuteOfDay(c) * 60 + end % 60 - 1;
  }

  /** The usual all-day event, midnight to the next midnight, ends one second
      before that next midnight. */
  lemma AllDayEndOfWholeDay(start: Instant)
    requires start % 86400 == 0
    ensures AllDayEnd(start, start + SecondsPerDay) == start + SecondsPerDay - 1
  {
    var next := start + 86400;
    MidnightFacts(start);
    assert UtcClock(start) == DayTime(0, 0);
    assert SetClock(next, DayTime(0, 0)) == UtcDayStart(next) + next % 60;
  }

  /** An accepted interval, 10:30:30 to 10:31:00 on 1970-01-01, is stored
      ending before it starts. */
  lemma AllDayEndBeforeStart()
    ensures 37830 < 37860 && AllDayEnd(37830, 37860) == 37799
  {
    assert UtcClock(37830) == DayTime(10, 30);
  }

  // --------------------------------------------------- overlap query

  /** A stored event the overlap query returns: confirmed, of the same
      practitioner, not yet over, and sharing an instant with the interval. */
  predicate Blocks(ev: Event, pid: Id, start: Instant, end: Instant, now: Instant) {
    && OpenRangesOverlap(ev.startTime, ev.endTime, start, end)
    && ev.practitionerId == pid
    && ev.isConfirmed
    && ev.endTime >= now
  }

  predicate Overlapping(rows: seq<Event>, pid: Id, start: Instant, end: Instant, now: Instant) {
    exists k :: 0 <= k < |rows| && Blocks(rows[k], pid, start, end, now)
  }

  /** An empty interval, as an all-day event gets when its end lands exactly
      on its start, meets no event. */
  lemma EmptyIntervalMeetsNothing(rows: seq<Event>, pid: Id, start: Instant, now: Instant)
    ensures !Overlapping(rows, pid, start, start, now)
  {
  }

  /** A confirmed, unfinished event of positive length meets its own row. */
  lemma MeetsItself(rows: seq<Event>, k: nat, now: Instant)
    requires k < |rows| && rows[k].isConfirmed && rows[k].startTime < rows[k].endTime && rows[k].endTime >= now
    ensures Overlapping(rows, rows[k].practitionerId, rows[k].startTime, rows[k].endTime, now)
  {
    assert Blocks(rows[k], rows[k].practitionerId, rows[k].startTime, rows[k].endTime, now);
  }

  // --------------------------------------------------- rows

  /** The event a successful create stores. */
  function NewEvent(id: Id, userId: Id, req: CreateEventRequest, end: Instant, now: Instant): Event {
    Event(id, req.title, req.description, req.location, req.practitionerId,
          req.hexColor.GetOr(DefaultHexColor), now, req.startTime, end, userId,
          req.isConfirmed, req.isAllDay)
  }

  /** The fields an update merges into the stored event, before the times:
      a non-blank title (kept untrimmed), and a non-empty description,
      colour or location replace the stored ones; the flags fall back to the
      stored values. */
  function Merged(ev: Event, req: UpdateEventRequest): (m: Event)
    ensures m.id == ev.id && m.practitionerId == ev.practitionerId && m.createdById == ev.createdById
    ensures m.createdAt == ev.createdAt && m.startTime == ev.startTime && m.endTime == ev.endTime
    ensures m.title != ev.title ==> req.title == Some(m.title) && !IsBlank(m.title)
    ensures req.title.Some? && !IsBlank(req.title.value) ==> m.title == req.title.value
    ensures m.description == (if Truthy(req.description) then req.description else ev.description)
    ensures m.hexColor == (if Truthy(req.hexColor) then req.hexColor.value else ev.hexColor)
    ensures m.location == (if Truthy(req.location) then req.location else ev.location)
    ensures m.isConfirmed == req.isConfirmed.GetOr(ev.isConfirmed)
    ensures m.isAllDay == req.isAllDay.GetOr(ev.isAllDay)
  {
    var title := if Truthy(req.title) && |Trim(req.title.value)| != 0 then req.title.value else ev.title;
    TrimEmptyIffBlank(req.title.GetOr(""));
    ev.(
      title := title,
      description := if Truthy(req.description) then req.description else ev.description,
      hexColor := if Truthy(req.hexColor) then req.hexColor.value else ev.hexColor,
      location := if Truthy(req.location) then req.location else ev.location,
      isConfirmed := req.isConfirmed.GetOr(ev.isConfirmed),
      isAllDay := req.isAllDay.GetOr(ev.isAllDay))
  }

  /** An update that sends nothing leaves every field as stored. */
  lemma EmptyUpdateKeeps(ev: Event)
    ensures Merged(ev, UpdateEventRequest(None, None, None, None, None, None, None, None)) == ev
  {
  }

  /** The interval an update ends up with: supplied times replace the stored
      ones, and the end is normalised only when the request says all-day. */
  function UpdatedInterval(ev: Event, req: UpdateEventRequest): (Instant, Instant) {
    var start := req.startTime.GetOr(ev.startTime);
    var end := req.endTime.GetOr(ev.endTime);
    (start, if req.isAllDay == Some(true) then AllDayEnd(start, end) else end)
  }

  function FindById(rows: seq<Event>, id: Id): (r: Option<nat>)
    ensures r.Some? ==> r.value < |rows| && rows[r.value].id == id
    ensures r.None? ==> forall k :: 0 <= k < |rows| ==> rows[k].id != id
  {
    if |rows| == 0 then None
    else if rows[|rows| - 1].id == id then Some(|rows| - 1)
    else FindById(rows[..|rows| - 1], id)
  }

  predicate IdsIncreasing(rows: seq<Event>, nextId: Id) {
    && (forall i, j :: 0 <= i < j < |rows| ==> rows[i].id < rows[j].id)
    && (forall k :: 0 <= k < |rows| ==> rows[k].id < nextId)
  }

  lemma ReplaceKeepsIds(rows: seq<Event>, k: nat, e: Event, nextId: Id)
    requires IdsIncreasing(rows, nextId) && k < |rows| && e.id == rows[k].id
    ensures IdsIncreasing(rows[k := e], nextId)
  {
  }

  lemma RemoveKeepsIds(rows: seq<Event>, k: nat, nextId: Id)
    requires IdsIncreasing(rows, nextId) && k < |rows|
    ensures IdsIncreasing(rows[..k] + rows[k + 1..], nextId)
  {
    var r := rows[..k] + rows[k + 1..];
    forall i | 0 <= i < |r|
      ensures r[i] == rows[if i < k then i else i + 1]
    {
    }
  }

  /** The event table. */
  class EventStore {
    var rows: seq<Event>
    var nextId: Id
    /** Whether the event table answers during this request. */
    const reachable: bool

    predicate Valid()
      reads this
    {
      IdsIncreasing(rows, nextId)
    }

    constructor (initial: seq<Event>, nextId: Id, reachable: bool)
      requires IdsIncreasing(initial, nextId)
      ensures Valid() && rows == initial && this.nextId == nextId && this.reachable == reachable
    {
      rows := initial;
      this.nextId := nextId;
      this.reachable := reachable;
    }

    /** Whether a confirmed event of `pid` that is not yet over shares an
        instant with the interval. The interval becomes a range whose lower
        bound may not exceed its upper one: an inverted interval makes the
        query fail, which is answered as InternalServerError. */
    method IsIntervalOverlappingAnyEvent(pid: Id, start: Instant, end: Instant, now: Instant) returns (r: Result<bool>)
      ensures !reachable || end < start ==> r == Err(InternalServerError)
      ensures reachable && start <= end ==> r == Ok(Overlapping(rows, pid, start, end, now))
    {
      if !reachable || end < start {
        return Err(InternalServerError);
      }
      return Ok(exists k :: 0 <= k < |rows| && Blocks(rows[k], pid, start, end, now));
    }

    /** Creates an event. The start may not be in the past and the end must
        follow the start; an all-day end is then normalised without a second
        check; a confirmed event may not meet another confirmed one. */
    method CreatePractitionerEvent(userId: Id, req: CreateEventRequest, now: Instant) returns (r: Result<Event>)
      requires Valid()
      modifies this`rows, this`nextId
      ensures Valid()
      ensures var end := if req.isAllDay then AllDayEnd(req.startTime, req.endTime) else req.endTime;
        && (req.startTime < now ==> r == Err(BadRequest))
        && (now <= req.startTime && req.endTime <= req.startTime ==> r == Err(BadRequest))
        && (now <= req.startTime < req.endTime ==>
              && (!reachable ==> r == Err(InternalServerError))
              && (reachable && req.isConfirmed && end < req.startTime ==> r == Err(InternalServerError))
              && (reachable && req.isConfirmed && req.startTime <= end &&
                  Overlapping(old(rows), req.practitionerId, req.startTime, end, now) ==>
                    r == Err(UnprocessableEntity))
              && (reachable &&
                  !(req.isConfirmed && (end < req.startTime || Overlapping(old(rows), req.practitionerId, req.startTime, end, now))) ==>
                    r == Ok(NewEvent(old(nextId), userId, req, end, now))))
      ensures r.Ok? ==> rows == old(rows) + [r.value] && nextId == old(nextId) + 1
      ensures r.Err? ==> rows == old(rows) && nextId == old(nextId)
    {
      var start := req.startTime;
      var end := req.endTime;
      if start < now {
        return Err(BadRequest);
      }
      if end <= start {
        return Err(BadRequest);
      }
      if req.isAllDay {
        end := AllDayEnd(start, end);
      }
      if req.isConfirmed {
        var overlapping := IsIntervalOverlappingAnyEvent(req.practitionerId, start, end, now);
        if overlapping.Err? {
          return Err(overlapping.error);
        }
        if overlapping.value {
          return Err(UnprocessableEntity);
        }
      }
      if !reachable {
        return Err(InternalServerError);
      }
      var ev := NewEvent(nextId, userId, req, end, now);
      rows := rows + [ev];
      nextId := nextId + 1;
      return Ok(ev);
    }

    /** The event with this id; NotFound when there is none. The lookup is
        not guarded, so a store failure escapes as a 500. */
    method GetPractitionerEvent(id: Id) returns (r: Result<Event>)
      ensures !reachable ==> r == Err(InternalServerError)
      ensures reachable ==> r == (if FindById(rows, id).Some? then Ok(rows[FindById(rows, id).value]) else Err(NotFound))
    {
      if !reachable {
        return Err(InternalServerError);
      }
      var k := FindById(rows, id);
      if k.None? {
        return Err(NotFound);
      }
      return Ok(rows[k.value]);
    }

    /** The owning practitioner, or no value both when the event is missing
        and when the store fails. */
    method GetPractitionerIdForEventId(id: Id) returns (r: Option<Id>)
      ensures r.Some? <==> reachable && FindById(rows, id).Some?
      ensures r.Some? ==> r.value == rows[FindById(rows, id).value].practitionerId
    {
      if !reachable {
        return None;
      }
      var k := FindById(rows, id);
      if k.None? {
        return None;
      }
      return Some(rows[k.value].practitionerId);
    }

    method DeletePractitionerEvent(id: Id) returns (r: Result<()>)
      requires Valid()
      modifies this`rows
      ensures Valid()
      ensures !reachable ==> r == Err(InternalServerError) && rows == old(rows)
      ensures reachable && FindById(old(rows), id).None? ==> r == Err(NotFound) && rows == old(rows)
      ensures reachable && FindById(old(rows), id).Some? ==>
        var k := FindById(old(rows), id).value;
        r == Ok(()) && rows == old(rows)[..k] + old(rows)[k + 1..]
    {
      var ev := GetPractitionerEvent(id);
      if ev.Err? {
        return Err(ev.error);
      }
      var k := FindById(rows, id).value;
      RemoveKeepsIds(rows, k, nextId);
      rows := rows[..k] + rows[k + 1..];
      return Ok(());
    }

    /** Updates an event: supplied times replace the stored ones and must
        keep the end after the start (there is no past-start check); the
        fields are merged; an all-day request normalises the end; a confirmed
        result must not meet any confirmed event, its own row included. */
    method UpdatePractitionerEvent(id: Id, req: UpdateEventRequest, now: Instant) returns (r: Result<Event>)
      requires Valid()
      modifies this`rows
      ensures Valid()
      ensures !reachable ==> r == Err(InternalServerError)
      ensures reachable && FindById(old(rows), id).None? ==> r == Err(NotFound)
      ensures reachable && FindById(old(rows), id).Some? ==>
        var k := FindById(old(rows), id).value;
        var ev := old(rows)[k];
        var start := req.startTime.GetOr(ev.startTime);
        var end := req.endTime.GetOr(ev.endTime);
        var interval := UpdatedInterval(ev, req);
        var updated := Merged(ev, req).(startTime := interval.0, endTime := interval.1);
        && (end <= start ==> r == Err(BadRequest))
        && (start < end && updated.isConfirmed && interval.1 < interval.0 ==> r == Err(InternalServerError))
        && (start < end && updated.isConfirmed && interval.0 <= interval.1 &&
            Overlapping(old(rows), ev.practitionerId, interval.0, interval.1, now) ==>
              r == Err(UnprocessableEntity))
        && (start < end &&
            !(updated.isConfirmed && (interval.1 < interval.0 || Overlapping(old(rows), ev.practitionerId, interval.0, interval.1, now))) ==>
              r == Ok(updated) && rows == old(rows)[k := updated])
      ensures r.Err? ==> rows == old(rows)
    {
      var found := GetPractitionerEvent(id);
      if found.Err? {
        return Err(found.error);
      }
      var ev := found.value;
      var k := FindById(rows, id).value;
      var start := ev.startTime;
      var end := ev.endTime;
      if req.startTime.Some? {
        start := req.startTime.value;
      }
      if req.endTime.Some? {
        end := req.endTime.value;
      }
      if end <= start {
        return Err(BadRequest);
      }
      if req.isAllDay == Some(true) {
        end := AllDayEnd(start, end);
      }
      assert (start, end) == UpdatedInterval(ev, req);
      var updated := Merged(ev, req).(startTime := start, endTime := end);
      if updated.isConfirmed {
        var overlapping := IsIntervalOverlappingAnyEvent(ev.practitionerId, start, end, now);
        if overlapping.Err? {
          return Err(overlapping.error);
        }
        if overlapping.value {
          return Err(UnprocessableEntity);
        }
      }
      ReplaceKeepsIds(rows, k, updated, nextId);
      rows := rows[k := updated];
      return Ok(updated);
    }
  }

  /** Renaming a confirmed, unfinished event of positive length is refused:
      its unchanged interval meets its own stored row. */
  lemma RenameCollidesWithItself(rows: seq<Event>, k: nat, title: string, now: Instant)
    requires k < |rows| && rows[k].isConfirmed && rows[k].startTime < rows[k].endTime && rows[k].endTime >= now
    ensures var req := UpdateEventRequest(Some(title), None, None, None, None, None, None, None);
      var interval := UpdatedInterval(rows[k], req);
      && Merged(rows[k], req).isConfirmed
      && interval == (rows[k].startTime, rows[k].endTime)
      && Overlapping(rows, rows[k].practitionerId, interval.0, interval.1, now)
  {
    MeetsItself(rows, k, now);
  }
}
