/** Booking and cancelling appointments: the end time from the slot length,
    the weekly-window containment test, the previous-day fallback, the overlap
    query against existing appointments, and the guarded cancellation. */
module Appointments {
  import opened Base
  import opened Clock
  import opened Text
  import opened Schedules

  /** Appointment statuses; `OtherStatus` stands for any further stored id. */
  datatype Status = Pending | Confirmed | Cancelled | OtherStatus(code: int)

  datatype Appointment = Appointment(
    id: Id,
    practitionerId: Id,
    userId: Id,
    updatedById: Id,
    createdAt: Instant,
    userNotes: Option<string>,
    startTime: Instant,
    endTime: Instant,
    status: Status,
    isVirtual: bool,
    cancelledByPractitioner: bool,
    cancellationReason: Option<string>,
    cancellationTime: Option<Instant>,
    doctorVideoUrl: Option<string>,
    userVideoUrl: Option<string>,
    virtualMeetingId: Option<string>)

  datatype CreateAppointmentRequest =
    CreateAppointmentRequest(practitionerId: Id, startTime: Instant, isVirtual: bool, userNotes: Option<string>)

  /** What the video-meeting provider answers for a new meeting. */
  datatype Meeting = Meeting(hostRoomUrl: string, roomUrl: string, meetingId: string)

  // ------------------------------------------------------- days and windows

  /** The stored day of the week of an instant: the UTC weekday plus one. */
  function StoredDayOfWeek(t: Instant): (d: int)
    ensures IsWeekDay(d)
    ensures (d == Sunday) == (UtcWeekday(t) == 0)
  {
    UtcWeekday(t) + 1
  }

  /** The day the fallback looks up: Saturday for a Sunday, otherwise the
      UTC weekday number itself. */
  function PreviousDayOfWeek(t: Instant): (d: int)
    ensures IsWeekDay(d)
  {
    if UtcWeekday(t) == 0 then Saturday else UtcWeekday(t)
  }

  /** The fallback's day is the stored day of the instant 24 hours earlier. */
  lemma PreviousDayIsDayBefore(t: Instant)
    ensures PreviousDayOfWeek(t) == StoredDayOfWeek(t - SecondsPerDay)
  {
    var q := t / 86400;
    assert t - SecondsPerDay == (q - 1) * 86400 + t % 86400;
    assert (t - SecondsPerDay) / 86400 == q - 1;
  }

  /** Minutes from `s` to `e` going forward on the clock, as the three
      branches of the source compute it. */
  function MinuteDifference(s: ClockTime, e: ClockTime): (r: int)
    ensures 0 <= r < MinutesPerDay
    ensures r == (MinuteOfDay(e) - MinuteOfDay(s)) % MinutesPerDay
  {
    if s.hour > e.hour then
      var m := (24 - s.hour) * 60 + e.hour * 60 + (-s.minute + e.minute);
      assert m == MinutesPerDay + (MinuteOfDay(e) - MinuteOfDay(s));
      m
    else if s.hour < e.hour then
      (e.hour - s.hour) * 60 + (-s.minute + e.minute)
    else if s.minute > e.minute then
      24 * 60 - s.minute + e.minute
    else
      e.minute - s.minute
  }

  lemma MinuteDifferenceOfEqualTimes(t: ClockTime)
    ensures MinuteDifference(t, t) == 0
  {
  }

  /** An end earlier on the clock than the start wraps past midnight. */
  lemma MinuteDifferenceWraps(s: ClockTime, e: ClockTime)
    requires MinuteOfDay(e) < MinuteOfDay(s)
    ensures MinuteDifference(s, e) == MinutesPerDay - MinuteOfDay(s) + MinuteOfDay(e)
  {
  }

  /** The window's opening on the UTC date of the appointment (seconds zero). */
  function WindowStart(start: Instant, w: ScheduleRow): Instant {
    UtcDayStart(start) + MinuteOfDay(w.startTime) * 60
  }

  /** The window's closing: its opening plus the clock distance to its end time. */
  function WindowEnd(start: Instant, w: ScheduleRow): (e: Instant)
    ensures WindowStart(start, w) <= e < WindowStart(start, w) + SecondsPerDay
  {
    WindowStart(start, w) + MinuteDifference(w.startTime, w.endTime) * 60
  }

  /** `isAppointmentBetweenScheduleTimes`: both ends within the window, and the
      two intervals overlapping, all boundaries inclusive. */
  predicate FitsWindow(start: Instant, end: Instant, w: ScheduleRow) {
    var ws := WindowStart(start, w);
    var we := WindowEnd(start, w);
    && ws <= start <= we
    && ws <= end <= we
    && start <= we && ws <= end
  }

  /** An appointment fits a window exactly when it lies inside it, ends included. */
  lemma FitsWindowIff(start: Instant, end: Instant, w: ScheduleRow)
    requires start <= end
    ensures FitsWindow(start, end, w) <==> WindowStart(start, w) <= start && end <= WindowEnd(start, w)
  {
  }

  predicate FitsAny(start: Instant, end: Instant, windows: seq<ScheduleRow>) {
    exists k :: 0 <= k < |windows| && FitsWindow(start, end, windows[k])
  }

  // ------------------------------------------------------- overlap query

  /** A stored appointment the overlap query returns for a new booking. The
      two status conditions share one parameter name, so both compare with
      Pending; the start-time bounds come from the last two conditions. */
  predicate BlocksBooking(ap: Appointment, pid: Id, start: Instant, end: Instant) {
    && OpenRangesOverlap(ap.startTime, ap.endTime, start, end)
    && ap.practitionerId == pid
    && ap.status != Pending
    && ap.status != Pending
    && ap.startTime >= start
    && ap.startTime <= end + SecondsPerDay
  }

  /** What the query finds: an overlapping appointment of the same practitioner
      that is not Pending (Cancelled ones included) and starts no earlier than
      the new one; the one-day upper bound never matters. */
  lemma BlocksBookingIff(ap: Appointment, pid: Id, start: Instant, end: Instant)
    ensures BlocksBooking(ap, pid, start, end) <==>
      && ap.practitionerId == pid
      && ap.status != Pending
      && start <= ap.startTime < ap.endTime
      && ap.startTime < end
  {
  }

  /** Touching appointments never conflict. */
  lemma TouchingNeverBlocks(ap: Appointment, pid: Id, start: Instant, end: Instant)
    requires ap.endTime == start || ap.startTime == end
    ensures !BlocksBooking(ap, pid, start, end)
  {
  }

  predicate HasConflict(rows: seq<Appointment>, pid: Id, start: Instant, end: Instant) {
    exists k :: 0 <= k < |rows| && BlocksBooking(rows[k], pid, start, end)
  }

  /** The row `createAppointment` saves, with the meeting's links when there is one. */
  function Booked(id: Id, userId: Id, request: CreateAppointmentRequest, end: Instant, now: Instant,
                  meeting: Option<Meeting>): Appointment
  {
    Appointment(
      id, request.practitionerId, userId, userId, now, request.userNotes, request.startTime, end,
      Confirmed, request.isVirtual, false, None, None,
      if meeting.Some? then Some(meeting.value.hostRoomUrl) else None,
      if meeting.Some? then Some(meeting.value.roomUrl) else None,
      if meeting.Some? then Some(meeting.value.meetingId) else None)
  }

  // ------------------------------------------------------- cancellation

  /** The row after a successful cancellation. */
  function CancelledRow(ap: Appointment, userId: Id, byPractitioner: bool, reason: string): Appointment {
    ap.(status := Cancelled, cancellationReason := Some(reason), updatedById := userId,
        cancelledByPractitioner := byPractitioner, doctorVideoUrl := None, userVideoUrl := None)
  }

  /** The condition that guards the call to delete the video meeting. */
  predicate CallsDeleteMeeting(ap: Appointment) {
    ap.isVirtual && (ap.doctorVideoUrl.Some? || ap.userVideoUrl.Some?)
  }

  /** The links are read after they are cleared, so the meeting is never deleted. */
  lemma NeverDeletesMeeting(ap: Appointment, userId: Id, byPractitioner: bool, reason: string)
    ensures !CallsDeleteMeeting(CancelledRow(ap, userId, byPractitioner, reason))
  {
  }

  /** The cancellation guards, in order: reason length, store, a missing row
      (read through `null`), the two-hour lead time, the status. */
  function CancelCheck(reason: string, reachable: bool, found: Option<Appointment>, now: Instant): (r: Option<HttpError>)
    ensures r == None <==> (|Trim(reason)| == 50 && reachable && found.Some? &&
      now <= found.value.startTime - 2 * 3600 &&
      (found.value.status == Confirmed || found.value.status == Pending))
    ensures |Trim(reason)| != 50 ==> r == Some(BadRequest)
    ensures r == Some(UnprocessableEntity) <==> (|Trim(reason)| == 50 && reachable && found.Some? &&
      (now > found.value.startTime - 2 * 3600 ||
       !(found.value.status == Confirmed || found.value.status == Pending)))
  {
    if |Trim(reason)| != 50 then Some(BadRequest)
    else if !reachable || found.None? then Some(InternalServerError)
    else if now > found.value.startTime - 2 * 3600 then Some(UnprocessableEntity)
    else if found.value.status != Confirmed && found.value.status != Pending then Some(UnprocessableEntity)
    else None
  }

  /** The position of the row with identifier `id`. */
  function FindById(rows: seq<Appointment>, id: Id): (r: Option<nat>)
    ensures r.Some? ==> r.value < |rows| && rows[r.value].id == id
    ensures r.None? ==> forall k :: 0 <= k < |rows| ==> rows[k].id != id
  {
    if |rows| == 0 then None
    else if rows[|rows| - 1].id == id then Some(|rows| - 1)
    else FindById(rows[..|rows| - 1], id)
  }

  predicate IdsIncreasing(rows: seq<Appointment>, nextId: Id) {
    && (forall i, j :: 0 <= i < j < |rows| ==> rows[i].id < rows[j].id)
    && (forall k :: 0 <= k < |rows| ==> rows[k].id < nextId)
  }

  function Found(rows: seq<Appointment>, id: Id): Option<Appointment> {
    var k := FindById(rows, id);
    if k.Some? then Some(rows[k.value]) else None
  }

  /** The appointments service over the appointment table; the schedule
      service it consults is a read-only collaborator. */
  class AppointmentsService {
    var rows: seq<Appointment>
    var nextId: Id
    /** Whether the appointment table answers during this request. */
    const reachable: bool
    const schedules: ScheduleStore

    predicate Valid()
      reads this
    {
      IdsIncreasing(rows, nextId)
    }

    constructor (initial: seq<Appointment>, nextId: Id, reachable: bool, schedules: ScheduleStore)
      requires IdsIncreasing(initial, nextId)
      ensures Valid() && rows == initial && this.nextId == nextId
      ensures this.reachable == reachable && this.schedules == schedules
    {
      rows := initial;
      this.nextId := nextId;
      this.reachable := reachable;
      this.schedules := schedules;
    }

    /** Books an appointment of `slot` minutes. `meeting` is what the video
        provider answers when the appointment is virtual (None: it failed). */
    method CreateAppointment(userId: Id, request: CreateAppointmentRequest, slot: nat, now: Instant,
                             meeting: Option<Meeting>) returns (r: Result<Appointment>)
      requires Valid()
      modifies this`rows, this`nextId
      ensures Valid()
      ensures var start := request.startTime;
        var end := AddMinutes(start, slot);
        var pid := request.practitionerId;
        var current := RowsForDay(schedules.rows, pid, StoredDayOfWeek(start));
        var previous := RowsForDay(schedules.rows, pid, PreviousDayOfWeek(start));
        var checked := now <= start && schedules.reachable && FitsAny(start, end, current) && reachable;
        && (start < now ==> r == Err(BadRequest))
        && (now <= start && !schedules.reachable ==> r == Err(InternalServerError))
        && (now <= start && schedules.reachable && !FitsAny(start, end, current) ==>
              r == Err(if |previous| == 0 then BadRequest else UnprocessableEntity))
        && (now <= start && schedules.reachable && FitsAny(start, end, current) && !reachable ==>
              r == Err(InternalServerError))
        && (checked && HasConflict(old(rows), pid, start, end) ==> r == Err(UnprocessableEntity))
        && (r.Ok? <==> checked && !HasConflict(old(rows), pid, start, end) && (request.isVirtual ==> meeting.Some?))
        && (checked && !HasConflict(old(rows), pid, start, end) ==>
              rows == old(rows) + [Booked(old(nextId), userId, request, end, now,
                                          if request.isVirtual then meeting else None)] &&
              nextId == old(nextId) + 1)
        && (r.Ok? ==> r.value == rows[|rows| - 1])
        && (request.isVirtual && meeting.None? && checked && !HasConflict(old(rows), pid, start, end) ==>
              r == Err(InternalServerError))
        && (!(checked && !HasConflict(old(rows), pid, start, end)) ==> rows == old(rows) && nextId == old(nextId))
    {
      var start := request.startTime;
      var end := AddMinutes(start, slot);
      if start < now {
        return Err(BadRequest);
      }
      var current := schedules.GetSchedulesForDayOfWeek(request.practitionerId, StoredDayOfWeek(start));
      if current.Err? {
        return Err(InternalServerError);
      }
      var fits := FitsAny(start, end, current.value);
      if !fits {
        var previous := schedules.GetSchedulesForDayOfWeek(request.practitionerId, PreviousDayOfWeek(start));
        if previous.Err? {
          return Err(InternalServerError);
        }
        if |previous.value| == 0 {
          return Err(BadRequest);
        }
        // the fallback tests the current day's windows again
        var fitsPrevious := FitsAny(start, end, current.value);
        if !fitsPrevious {
          return Err(UnprocessableEntity);
        }
      }
      if !reachable {
        return Err(InternalServerError);
      }
      if HasConflict(rows, request.practitionerId, start, end) {
        return Err(UnprocessableEntity);
      }
      var saved := Booked(nextId, userId, request, end, now, None);
      rows := rows + [saved];
      nextId := nextId + 1;
      if saved.isVirtual {
        if meeting.None? {
          return Err(InternalServerError);
        }
        saved := Booked(saved.id, userId, request, end, now, meeting);
        rows := rows[|rows| - 1 := saved];
      }
      return Ok(saved);
    }

    /** `getAppointmentById`: the row, or None when it is missing or the store fails. */
    method GetAppointmentById(id: Id) returns (r: Option<Appointment>)
      ensures r == (if reachable then Found(rows, id) else None)
    {
      if !reachable {
        return None;
      }
      return Found(rows, id);
    }

    /** Cancels appointment `id` on behalf of `userId`. A failing save is
        swallowed (`saveSucceeds` false leaves the row as it was). The result
        says whether the video meeting was asked to be deleted. */
    method CancelAppointment(id: Id, userId: Id, byPractitioner: bool, reason: string, now: Instant,
                             saveSucceeds: bool) returns (r: Result<bool>)
      requires Valid()
      modifies this`rows
      ensures Valid()
      ensures var found := Found(old(rows), id);
        var verdict := CancelCheck(reason, reachable, found, now);
        && (verdict.Some? ==> r == Err(verdict.value) && rows == old(rows))
        && (verdict.None? ==> r == Ok(false))
        && (verdict.None? && saveSucceeds ==>
              rows == old(rows)[FindById(old(rows), id).value := CancelledRow(found.value, userId, byPractitioner, reason)])
        && (verdict.None? && !saveSucceeds ==> rows == old(rows))
    {
      if |Trim(reason)| != 50 {
        return Err(BadRequest);
      }
      if !reachable {
        return Err(InternalServerError);
      }
      var k := FindById(rows, id);
      if k.None? {
        return Err(InternalServerError);
      }
      var ap := rows[k.value];
      if now > ap.startTime - 2 * 3600 {
        return Err(UnprocessableEntity);
      }
      if ap.status != Confirmed && ap.status != Pending {
        return Err(UnprocessableEntity);
      }
      ap := CancelledRow(ap, userId, byPractitioner, reason);
      var doctorUrl := ap.doctorVideoUrl;
      var userUrl := ap.userVideoUrl;
      if saveSucceeds {
        rows := rows[k.value := ap];
      }
      var deletesMeeting := ap.isVirtual && (doctorUrl.Some? || userUrl.Some?);
      return Ok(deletesMeeting);
    }
  }

  /** Only a cancellable row with a 50-character trimmed reason, at least two
      hours ahead, passes the guards; everything else changes nothing. */
  lemma CancelLeadTime(reason: string, ap: Appointment, now: Instant)
    requires |Trim(reason)| == 50 && ap.status == Confirmed
    ensures CancelCheck(reason, true, Some(ap), now).None? <==> now + 2 * 3600 <= ap.startTime
  {
  }
}
