/** The weekly availability windows of practitioners: expanding requests into
    one window per day, the same-day overlap check, the delete-then-insert
    replace, the default week and the per-day lookup. */
module Schedules {
  import opened Base
  import opened Clock

  // Days of the week as stored: Sunday is 1 and Saturday is 7.
  const Sunday: int := 1
  const Monday: int := 2
  const Tuesday: int := 3
  const Wednesday: int := 4
  const Thursday: int := 5
  const Friday: int := 6
  const Saturday: int := 7

  predicate IsWeekDay(d: int) {
    Sunday <= d <= Saturday
  }

  /** A request for the same window on several days of the week. */
  datatype ScheduleDto = ScheduleDto(daysOfWeek: seq<int>, startTime: ClockTime, endTime: ClockTime)

  /** A stored window. The time columns hold `HH:mm` text (`TimeText`), which
      `ParseTime` reads back unchanged, so the row keeps the clock times. */
  datatype ScheduleRow = ScheduleRow(practitionerId: Id, dayOfWeek: int, startTime: ClockTime, endTime: ClockTime)

  /** What every stored window satisfies. */
  predicate WellFormed(row: ScheduleRow) {
    IsWeekDay(row.dayOfWeek) && MinuteOfDay(row.startTime) <= MinuteOfDay(row.endTime)
  }

  /** The default week: Monday to Friday, 07:00 to 15:00 (UTC). */
  const DefaultSchedule: ScheduleDto :=
    ScheduleDto([Monday, Tuesday, Wednesday, Thursday, Friday], DayTime(7, 0), DayTime(15, 0))

  // ---------------------------------------------------------------- HH:mm

  predicate IsDigit(c: char) {
    '0' <= c <= '9'
  }

  function Digit(d: int): (c: char)
    requires 0 <= d < 10
    ensures IsDigit(c) && c as int - '0' as int == d
  {
    ('0' as int + d) as char
  }

  function DigitValue(c: char): int
    requires IsDigit(c)
  {
    c as int - '0' as int
  }

  /** A clock time in the `HH:mm` format: two-digit hour, colon, two-digit minute. */
  function TimeText(t: ClockTime): (s: string)
    ensures |s| == 5 && s[2] == ':'
    ensures IsDigit(s[0]) && IsDigit(s[1]) && IsDigit(s[3]) && IsDigit(s[4])
  {
    [Digit(t.hour / 10), Digit(t.hour % 10), ':', Digit(t.minute / 10), Digit(t.minute % 10)]
  }

  /** Reads `HH:mm` text back; anything else is refused. */
  function ParseTime(s: string): Option<ClockTime> {
    if |s| == 5 && s[2] == ':' && IsDigit(s[0]) && IsDigit(s[1]) && IsDigit(s[3]) && IsDigit(s[4]) then
      var h := DigitValue(s[0]) * 10 + DigitValue(s[1]);
      var m := DigitValue(s[3]) * 10 + DigitValue(s[4]);
      if h < 24 && m < 60 then Some(DayTime(h, m)) else None
    else
      None
  }

  /** Writing a time and reading it back gives the same time. */
  lemma ParseTimeText(t: ClockTime)
    ensures ParseTime(TimeText(t)) == Some(t)
  {
    var s := TimeText(t);
    assert DigitValue(s[0]) * 10 + DigitValue(s[1]) == t.hour;
    assert DigitValue(s[3]) * 10 + DigitValue(s[4]) == t.minute;
  }

  /** Text that reads as a time is exactly that time's `HH:mm` text. */
  lemma TimeTextOfParse(s: string, t: ClockTime)
    requires ParseTime(s) == Some(t)
    ensures TimeText(t) == s
  {
    var r := TimeText(t);
    assert r[0] == s[0] && r[1] == s[1] && r[3] == s[3] && r[4] == s[4];
  }

  // ------------------------------------------------------- expansion

  /** The windows for the first `k` days of one request, or None when one
      of those days is outside 1..7 or the request starts after it ends.
      A request without days is never checked. */
  function DayRows(dto: ScheduleDto, pid: Id, k: nat): Option<seq<ScheduleRow>>
    requires k <= |dto.daysOfWeek|
  {
    if k == 0 then Some([])
    else
      match DayRows(dto, pid, k - 1)
      case None => None
      case Some(prefix) =>
        var day := dto.daysOfWeek[k - 1];
        if !IsWeekDay(day) || MinuteOfDay(dto.startTime) > MinuteOfDay(dto.endTime) then None
        else Some(prefix + [ScheduleRow(pid, day, dto.startTime, dto.endTime)])
  }

  /** All windows of a list of requests, request by request and day by day. */
  function Expand(dtos: seq<ScheduleDto>, pid: Id): Option<seq<ScheduleRow>> {
    if |dtos| == 0 then Some([])
    else
      match Expand(dtos[..|dtos| - 1], pid)
      case None => None
      case Some(prefix) =>
        var last := dtos[|dtos| - 1];
        match DayRows(last, pid, |last.daysOfWeek|)
        case None => None
        case Some(rows) => Some(prefix + rows)
  }

  /** A request the expansion accepts. */
  predicate Accepted(dto: ScheduleDto) {
    && (forall j :: 0 <= j < |dto.daysOfWeek| ==> IsWeekDay(dto.daysOfWeek[j]))
    && (|dto.daysOfWeek| == 0 || MinuteOfDay(dto.startTime) <= MinuteOfDay(dto.endTime))
  }

  /** One request expands to one window per day, in order, carrying the
      request's times and the practitioner, exactly when its days are valid. */
  lemma {:induction false} DayRowsSpec(dto: ScheduleDto, pid: Id, k: nat)
    requires k <= |dto.daysOfWeek|
    ensures DayRows(dto, pid, k).Some? <==>
      (forall j :: 0 <= j < k ==> IsWeekDay(dto.daysOfWeek[j]))
      && (k == 0 || MinuteOfDay(dto.startTime) <= MinuteOfDay(dto.endTime))
    ensures DayRows(dto, pid, k).Some? ==>
      var rows := DayRows(dto, pid, k).value;
      |rows| == k &&
      forall j :: 0 <= j < k ==> rows[j] == ScheduleRow(pid, dto.daysOfWeek[j], dto.startTime, dto.endTime)
  {
    if k > 0 {
      DayRowsSpec(dto, pid, k - 1);
    }
  }

  /** Expansion succeeds exactly when every request is accepted, and then
      every window is well formed and belongs to the practitioner. */
  lemma {:induction false} ExpandSpec(dtos: seq<ScheduleDto>, pid: Id)
    ensures Expand(dtos, pid).Some? <==> forall i :: 0 <= i < |dtos| ==> Accepted(dtos[i])
    ensures Expand(dtos, pid).Some? ==>
      forall k :: 0 <= k < |Expand(dtos, pid).value| ==>
        WellFormed(Expand(dtos, pid).value[k]) && Expand(dtos, pid).value[k].practitionerId == pid
  {
    if |dtos| > 0 {
      var init := dtos[..|dtos| - 1];
      var last := dtos[|dtos| - 1];
      ExpandSpec(init, pid);
      DayRowsSpec(last, pid, |last.daysOfWeek|);
      assert forall i :: 0 <= i < |init| ==> init[i] == dtos[i];
      if Expand(dtos, pid).Some? {
        var prefix := Expand(init, pid).value;
        var rows := DayRows(last, pid, |last.daysOfWeek|).value;
        assert Expand(dtos, pid).value == prefix + rows;
      }
    }
  }

  /** The default request expands to five windows, Monday to Friday, 07:00 to 15:00. */
  lemma DefaultRows(pid: Id)
    ensures Expand([DefaultSchedule], pid) == Some([
      ScheduleRow(pid, Monday, DayTime(7, 0), DayTime(15, 0)),
      ScheduleRow(pid, Tuesday, DayTime(7, 0), DayTime(15, 0)),
      ScheduleRow(pid, Wednesday, DayTime(7, 0), DayTime(15, 0)),
      ScheduleRow(pid, Thursday, DayTime(7, 0), DayTime(15, 0)),
      ScheduleRow(pid, Friday, DayTime(7, 0), DayTime(15, 0))])
  {
    assert [DefaultSchedule][..0] == [];
    DayRowsSpec(DefaultSchedule, pid, 5);
    var rows := DayRows(DefaultSchedule, pid, 5).value;
    assert Expand([DefaultSchedule], pid) == Some([] + rows);
    assert [] + rows == rows;
    var days := DefaultSchedule.daysOfWeek;
    assert days[0] == Monday && days[1] == Tuesday && days[2] == Wednesday;
    assert days[3] == Thursday && days[4] == Friday;
    assert rows == [rows[0], rows[1], rows[2], rows[3], rows[4]];
  }

  lemma {:induction false} DayRowsNoneStays(dto: ScheduleDto, pid: Id, j: nat, k: nat)
    requires j <= k <= |dto.daysOfWeek| && DayRows(dto, pid, j).None?
    ensures DayRows(dto, pid, k).None?
    decreases k - j
  {
    if j < k {
      DayRowsNoneStays(dto, pid, j, k - 1);
    }
  }

  lemma {:induction false} ExpandNoneStays(dtos: seq<ScheduleDto>, pid: Id, i: nat)
    requires i <= |dtos| && Expand(dtos[..i], pid).None?
    ensures Expand(dtos, pid).None?
    decreases |dtos| - i
  {
    if i < |dtos| {
      assert dtos[..|dtos| - 1][..i] == dtos[..i];
      ExpandNoneStays(dtos[..|dtos| - 1], pid, i);
    } else {
      assert dtos[..i] == dtos;
    }
  }

  /** The windows of one request, day by day (the inner `map`). */
  method MapDays(dto: ScheduleDto, pid: Id) returns (rows: Option<seq<ScheduleRow>>)
    ensures rows == DayRows(dto, pid, |dto.daysOfWeek|)
  {
    var acc: seq<ScheduleRow> := [];
    var j := 0;
    while j < |dto.daysOfWeek|
      invariant 0 <= j <= |dto.daysOfWeek|
      invariant DayRows(dto, pid, j) == Some(acc)
    {
      var day := dto.daysOfWeek[j];
      if day < 1 || day > 7 || MinuteOfDay(dto.startTime) > MinuteOfDay(dto.endTime) {
        DayRowsNoneStays(dto, pid, j + 1, |dto.daysOfWeek|);
        return None;
      }
      acc := acc + [ScheduleRow(pid, day, dto.startTime, dto.endTime)];
      j := j + 1;
    }
    return Some(acc);
  }

  /** Mapping the requests to windows; None stands for the plain error the
      mapping throws on a day outside 1..7 or a start after the end. */
  method MapScheduleModels(dtos: seq<ScheduleDto>, pid: Id) returns (mapped: Option<seq<ScheduleRow>>)
    ensures mapped == Expand(dtos, pid)
  {
    var acc: seq<ScheduleRow> := [];
    var i := 0;
    while i < |dtos|
      invariant 0 <= i <= |dtos|
      invariant Expand(dtos[..i], pid) == Some(acc)
    {
      assert dtos[..i + 1][..i] == dtos[..i];
      var dayRows := MapDays(dtos[i], pid);
      if dayRows.None? {
        ExpandNoneStays(dtos, pid, i + 1);
        return None;
      }
      acc := acc + dayRows.value;
      i := i + 1;
    }
    assert dtos[..|dtos|] == dtos;
    return Some(acc);
  }

  // ------------------------------------------------------- overlap check

  /** luxon `Interval.overlaps` for two windows on the same reference day:
      the first ends after the second starts and starts before it ends. */
  predicate WindowsOverlap(a: ScheduleRow, b: ScheduleRow) {
    MinuteOfDay(a.endTime) > MinuteOfDay(b.startTime) && MinuteOfDay(a.startTime) < MinuteOfDay(b.endTime)
  }

  predicate IsNonEmpty(a: ScheduleRow) {
    MinuteOfDay(a.startTime) < MinuteOfDay(a.endTime)
  }

  /** The pairs the replace loop compares: each window before the last one
      against every window from its own position on, itself included. */
  predicate AsWrittenConflict(rows: seq<ScheduleRow>) {
    exists i, j :: 0 <= i < |rows| - 1 && i <= j < |rows| &&
      rows[j].dayOfWeek == rows[i].dayOfWeek && WindowsOverlap(rows[i], rows[j])
  }

  /** Two different windows of the same day overlap: what the loop's comment intends. */
  predicate SameDayOverlap(rows: seq<ScheduleRow>) {
    exists i, j :: 0 <= i < j < |rows| &&
      rows[j].dayOfWeek == rows[i].dayOfWeek && WindowsOverlap(rows[i], rows[j])
  }

  /** The replace loop over the mapped windows; true where it throws. */
  method FindScheduleConflict(rows: seq<ScheduleRow>) returns (conflict: bool)
    ensures conflict == AsWrittenConflict(rows)
  {
    var index := 0;
    while index < |rows| - 1
      invariant 0 <= index && (index == 0 || index <= |rows| - 1)
      invariant forall i, j :: 0 <= i < index && i <= j < |rows| ==>
        !(rows[j].dayOfWeek == rows[i].dayOfWeek && WindowsOverlap(rows[i], rows[j]))
    {
      var current := rows[index];
      var k := index;
      while k < |rows|
        invariant index <= k <= |rows|
        invariant forall j :: index <= j < k ==>
          !(rows[j].dayOfWeek == current.dayOfWeek && WindowsOverlap(current, rows[j]))
      {
        if rows[k].dayOfWeek == current.dayOfWeek && WindowsOverlap(current, rows[k]) {
          return true;
        }
        k := k + 1;
      }
      index := index + 1;
    }
    return false;
  }

  /** As written, the loop rejects exactly the intended same-day overlaps plus
      every list with a non-empty window before its last position, because each
      window is compared with itself. */
  lemma AsWrittenConflictIff(rows: seq<ScheduleRow>)
    ensures AsWrittenConflict(rows) <==>
      SameDayOverlap(rows) || exists i :: 0 <= i < |rows| - 1 && IsNonEmpty(rows[i])
  {
    if AsWrittenConflict(rows) {
      var i, j :| 0 <= i < |rows| - 1 && i <= j < |rows| &&
        rows[j].dayOfWeek == rows[i].dayOfWeek && WindowsOverlap(rows[i], rows[j]);
      if i == j {
        assert IsNonEmpty(rows[i]);
      }
    }
    if exists i :: 0 <= i < |rows| - 1 && IsNonEmpty(rows[i]) {
      var i :| 0 <= i < |rows| - 1 && IsNonEmpty(rows[i]);
      assert WindowsOverlap(rows[i], rows[i]);
    }
  }

  /** Replacing with the default week itself is rejected as written. */
  lemma DefaultWeekRejected(pid: Id)
    ensures Expand([DefaultSchedule], pid).Some? && AsWrittenConflict(Expand([DefaultSchedule], pid).value)
  {
    DefaultRows(pid);
    var rows := Expand([DefaultSchedule], pid).value;
    assert WindowsOverlap(rows[0], rows[0]);
  }

  // ------------------------------------------------------- store queries

  /** The windows left by `delete({ practitionerId })`: those of everybody else, in order. */
  function OtherPractitioners(rows: seq<ScheduleRow>, pid: Id): (r: seq<ScheduleRow>)
    ensures forall k :: 0 <= k < |r| ==> r[k].practitionerId != pid && r[k] in rows
    ensures forall x :: x in rows && x.practitionerId != pid ==> x in r
  {
    if |rows| == 0 then []
    else
      var init := OtherPractitioners(rows[..|rows| - 1], pid);
      var last := rows[|rows| - 1];
      assert rows == rows[..|rows| - 1] + [last];
      if last.practitionerId == pid then init else init + [last]
  }

  /** The windows a `find({ where: { dayOfWeek, practitionerId } })` returns, in order. */
  function RowsForDay(rows: seq<ScheduleRow>, pid: Id, day: int): (r: seq<ScheduleRow>)
    ensures forall x :: x in r <==> x in rows && x.practitionerId == pid && x.dayOfWeek == day
  {
    if |rows| == 0 then []
    else
      var init := RowsForDay(rows[..|rows| - 1], pid, day);
      var last := rows[|rows| - 1];
      assert rows == rows[..|rows| - 1] + [last];
      if last.practitionerId == pid && last.dayOfWeek == day then init + [last] else init
  }

  lemma {:induction false} RowsForDayAppend(a: seq<ScheduleRow>, b: seq<ScheduleRow>, pid: Id, day: int)
    ensures RowsForDay(a + b, pid, day) == RowsForDay(a, pid, day) + RowsForDay(b, pid, day)
    decreases |b|
  {
    if |b| == 0 {
      assert a + b == a;
    } else {
      var ab := a + b;
      var init := b[..|b| - 1];
      var last := b[|b| - 1];
      assert ab[..|ab| - 1] == a + init;
      assert ab[|ab| - 1] == last;
      var tail := if last.practitionerId == pid && last.dayOfWeek == day then [last] else [];
      assert RowsForDay(ab, pid, day) == RowsForDay(a + init, pid, day) + tail;
      assert RowsForDay(b, pid, day) == RowsForDay(init, pid, day) + tail;
      RowsForDayAppend(a, init, pid, day);
      assert RowsForDay(a, pid, day) + RowsForDay(init, pid, day) + tail ==
        RowsForDay(a, pid, day) + (RowsForDay(init, pid, day) + tail);
    }
  }

  lemma {:induction false} NoRowsForDay(rows: seq<ScheduleRow>, pid: Id, day: int)
    requires forall k :: 0 <= k < |rows| ==> rows[k].practitionerId != pid
    ensures RowsForDay(rows, pid, day) == []
  {
    if |rows| > 0 {
      NoRowsForDay(rows[..|rows| - 1], pid, day);
    }
  }

  /** After a replace the lookup for the practitioner returns exactly the new
      windows of that day: the old ones are gone and nobody else's show up. */
  lemma ReplacedLookup(old_rows: seq<ScheduleRow>, mapped: seq<ScheduleRow>, pid: Id, day: int)
    requires forall k :: 0 <= k < |mapped| ==> mapped[k].practitionerId == pid
    ensures RowsForDay(OtherPractitioners(old_rows, pid) + mapped, pid, day) ==
      RowsForDay(mapped, pid, day)
  {
    var others := OtherPractitioners(old_rows, pid);
    RowsForDayAppend(others, mapped, pid, day);
    NoRowsForDay(others, pid, day);
    assert [] + RowsForDay(mapped, pid, day) == RowsForDay(mapped, pid, day);
  }

  /** The store of windows of all practitioners. */
  class ScheduleStore {
    var rows: seq<ScheduleRow>
    /** Whether the database answers during this request. */
    const reachable: bool

    predicate Valid()
      reads this
    {
      forall k :: 0 <= k < |rows| ==> WellFormed(rows[k])
    }

    constructor (initial: seq<ScheduleRow>, reachable: bool)
      requires forall k :: 0 <= k < |initial| ==> WellFormed(initial[k])
      ensures Valid() && rows == initial && this.reachable == reachable
    {
      rows := initial;
      this.reachable := reachable;
    }

    /** Replaces the practitioner's windows with the default week. */
    method InjectDefaultSchedule(pid: Id) returns (r: Result<seq<ScheduleRow>>)
      requires Valid()
      modifies this`rows
      ensures Valid()
      ensures reachable ==> (Expand([DefaultSchedule], pid).Some? && r == Ok(Expand([DefaultSchedule], pid).value) &&
        rows == OtherPractitioners(old(rows), pid) + r.value)
      ensures !reachable ==> r == Err(InternalServerError) && rows == old(rows)
    {
      DefaultRows(pid);
      ExpandSpec([DefaultSchedule], pid);
      var mapped := MapScheduleModels([DefaultSchedule], pid);
      if !reachable {
        return Err(InternalServerError);
      }
      rows := OtherPractitioners(rows, pid) + mapped.value;
      return Ok(mapped.value);
    }

    /** Validates the new windows, then deletes the practitioner's windows and
        saves the new ones; every failure is answered with InternalServerError
        and leaves the store as it was. */
    method ReplaceCurrentSchedules(newSchedules: seq<ScheduleDto>, pid: Id) returns (r: Result<seq<ScheduleRow>>)
      requires Valid()
      modifies this`rows
      ensures Valid()
      ensures r.Ok? <==> (reachable && Expand(newSchedules, pid).Some? &&
        !AsWrittenConflict(Expand(newSchedules, pid).value))
      ensures r.Ok? ==> (r.value == Expand(newSchedules, pid).value &&
        rows == OtherPractitioners(old(rows), pid) + r.value)
      ensures r.Err? ==> r.error == InternalServerError && rows == old(rows)
    {
      var mapped := MapScheduleModels(newSchedules, pid);
      if mapped.None? {
        return Err(InternalServerError);
      }
      var conflict := FindScheduleConflict(mapped.value);
      if conflict {
        return Err(InternalServerError);
      }
      if !reachable {
        return Err(InternalServerError);
      }
      ExpandSpec(newSchedules, pid);
      rows := OtherPractitioners(rows, pid) + mapped.value;
      return Ok(mapped.value);
    }

    /** The practitioner's windows for one day of the week. */
    method GetSchedulesForDayOfWeek(pid: Id, day: int) returns (r: Result<seq<ScheduleRow>>)
      ensures reachable ==> r == Ok(RowsForDay(rows, pid, day))
      ensures !reachable ==> r == Err(InternalServerError)
    {
      if !reachable {
        return Err(InternalServerError);
      }
      return Ok(RowsForDay(rows, pid, day));
    }
  }
}
