/** The qualifications of a practitioner: a list replaced as a whole by
    delete-then-insert, and read back per practitioner. */
module Qualifications {
  import opened Base
  import opened Text

  /** One qualification as sent. Dates are ISO-8601 text; `toDate` may be
      left out. */
  datatype QualificationDto = QualificationDto(title: string, fromDate: string, toDate: Option<string>, isCurrent: bool)

  /** A stored qualification. The practitioner id is kept as the text the
      service receives. */
  datatype QualificationRow = QualificationRow(
    practitionerId: string,
    title: string,
    fromDate: string,
    toDate: Option<string>,
    isCurrent: bool)

  /** A present, non-empty end date. */
  predicate HasEndDate(q: QualificationDto) {
    q.toDate.Some? && |q.toDate.value| > 0
  }

  /** The row stored for one entry, or no row when a past qualification has
      no end date. A current qualification never keeps an end date. */
  function MapEntry(q: QualificationDto, pid: string): (r: Option<QualificationRow>)
    ensures r.None? <==> !q.isCurrent && !HasEndDate(q)
    ensures r.Some? ==>
      && r.value.practitionerId == pid && r.value.title == q.title
      && r.value.fromDate == q.fromDate && r.value.isCurrent == q.isCurrent
      && (q.isCurrent ==> r.value.toDate.None?)
      && (!q.isCurrent ==> r.value.toDate == q.toDate)
  {
    if !q.isCurrent && !HasEndDate(q) then None
    else Some(QualificationRow(pid, q.title, q.fromDate, if q.isCurrent then None else q.toDate, q.isCurrent))
  }

  /** The whole list mapped in order; one bad entry fails the whole map. */
  function MapAll(qs: seq<QualificationDto>, pid: string): Option<seq<QualificationRow>>
  {
    if |qs| == 0 then Some([])
    else
      var init := MapAll(qs[..|qs| - 1], pid);
      var last := MapEntry(qs[|qs| - 1], pid);
      if init.Some? && last.Some? then Some(init.value + [last.value]) else None
  }

  /** The map succeeds exactly when every entry maps, and then yields one row
      per entry, in order, each for `pid`. */
  lemma {:induction false} MapAllSpec(qs: seq<QualificationDto>, pid: string)
    ensures MapAll(qs, pid).Some? <==> forall k :: 0 <= k < |qs| ==> MapEntry(qs[k], pid).Some?
    ensures MapAll(qs, pid).Some? ==>
      && |MapAll(qs, pid).value| == |qs|
      && forall k :: 0 <= k < |qs| ==> MapAll(qs, pid).value[k] == MapEntry(qs[k], pid).value
  {
    if |qs| > 0 {
      var init := qs[..|qs| - 1];
      MapAllSpec(init, pid);
      assert forall k :: 0 <= k < |init| ==> init[k] == qs[k];
    }
  }

  /** The rows of every other practitioner, in order. */
  function Without(rows: seq<QualificationRow>, pid: string): (r: seq<QualificationRow>)
    ensures forall q :: q in r <==> q in rows && q.practitionerId != pid
  {
    if |rows| == 0 then []
    else
      var init := Without(rows[..|rows| - 1], pid);
      var last := rows[|rows| - 1];
      assert rows == rows[..|rows| - 1] + [last];
      if last.practitionerId == pid then init else init + [last]
  }

  /** The rows of one practitioner, in order. */
  function ForPractitioner(rows: seq<QualificationRow>, pid: string): (r: seq<QualificationRow>)
    ensures forall q :: q in r <==> q in rows && q.practitionerId == pid
  {
    if |rows| == 0 then []
    else
      var init := ForPractitioner(rows[..|rows| - 1], pid);
      var last := rows[|rows| - 1];
      assert rows == rows[..|rows| - 1] + [last];
      if last.practitionerId == pid then init + [last] else init
  }

  lemma {:induction false} ForPractitionerAppend(a: seq<QualificationRow>, b: seq<QualificationRow>, pid: string)
    ensures ForPractitioner(a + b, pid) == ForPractitioner(a, pid) + ForPractitioner(b, pid)
  {
    if |b| == 0 {
      assert a + b == a;
    } else {
      var init := b[..|b| - 1];
      ForPractitionerAppend(a, init, pid);
      assert (a + b)[..|a + b| - 1] == a + init;
      assert (a + b)[|a + b| - 1] == b[|b| - 1];
    }
  }

  lemma {:induction false} ForPractitionerOfOwn(rows: seq<QualificationRow>, pid: string)
    requires forall k :: 0 <= k < |rows| ==> rows[k].practitionerId == pid
    ensures ForPractitioner(rows, pid) == rows
  {
    if |rows| > 0 {
      ForPractitionerOfOwn(rows[..|rows| - 1], pid);
      assert rows == rows[..|rows| - 1] + [rows[|rows| - 1]];
    }
  }

  lemma {:induction false} ForPractitionerOfOthers(rows: seq<QualificationRow>, pid: string)
    requires forall k :: 0 <= k < |rows| ==> rows[k].practitionerId != pid
    ensures ForPractitioner(rows, pid) == []
  {
    if |rows| > 0 {
      ForPractitionerOfOthers(rows[..|rows| - 1], pid);
    }
  }

  /** After a replace, reading the practitioner back yields exactly the new
      rows, in order. */
  lemma ReplacedLookup(rows: seq<QualificationRow>, mapped: seq<QualificationRow>, pid: string)
    requires forall k :: 0 <= k < |mapped| ==> mapped[k].practitionerId == pid
    ensures ForPractitioner(Without(rows, pid) + mapped, pid) == mapped
  {
    var kept := Without(rows, pid);
    ForPractitionerAppend(kept, mapped, pid);
    assert forall k :: 0 <= k < |kept| ==> kept[k] in kept;
    ForPractitionerOfOthers(kept, pid);
    ForPractitionerOfOwn(mapped, pid);
  }

  /** The qualification table. */
  class QualificationStore {
    var rows: seq<QualificationRow>
    /** Whether the table answers during this request. */
    const reachable: bool

    constructor (initial: seq<QualificationRow>, reachable: bool)
      ensures rows == initial && this.reachable == reachable
    {
      rows := initial;
      this.reachable := reachable;
    }

    /** Replaces the practitioner's qualifications. A blank id or a missing
        list changes nothing; otherwise the old rows are deleted first, so an
        entry that cannot be mapped leaves the practitioner with none. */
    method UpdateQualificationsByPractitionerId(pid: string, qualifications: Option<seq<QualificationDto>>)
      returns (r: Result<()>)
      modifies this`rows
      ensures IsBlank(pid) || qualifications.None? ==> r == Ok(()) && rows == old(rows)
      ensures !IsBlank(pid) && qualifications.Some? && !reachable ==>
        r == Err(InternalServerError) && rows == old(rows)
      ensures !IsBlank(pid) && qualifications.Some? && reachable ==>
        var mapped := MapAll(qualifications.value, pid);
        && (mapped.None? ==> r == Err(InternalServerError) && rows == Without(old(rows), pid))
        && (mapped.Some? ==> r == Ok(()) && rows == Without(old(rows), pid) + mapped.value)
    {
      TrimEmptyIffBlank(pid);
      if |pid| == 0 || |Trim(pid)| == 0 || qualifications.None? {
        return Ok(());
      }
      if !reachable {
        return Err(InternalServerError);
      }
      rows := Without(rows, pid);
      var mapped := MapAll(qualifications.value, pid);
      if mapped.None? {
        return Err(InternalServerError);
      }
      rows := rows + mapped.value;
      return Ok(());
    }

    method GetQualificationsForPractitionerId(pid: string) returns (r: Result<seq<QualificationRow>>)
      ensures r == if reachable then Ok(ForPractitioner(rows, pid)) else Err(InternalServerError)
    {
      if !reachable {
        return Err(InternalServerError);
      }
      return Ok(ForPractitioner(rows, pid));
    }
  }

  /** A failed replace leaves the practitioner without qualifications. */
  lemma FailedReplaceLeavesNone(rows: seq<QualificationRow>, pid: string)
    ensures ForPractitioner(Without(rows, pid), pid) == []
  {
    var kept := Without(rows, pid);
    assert forall k :: 0 <= k < |kept| ==> kept[k] in kept;
    ForPractitionerOfOthers(kept, pid);
  }

  /** A successful replace stores exactly one row per entry, for this
      practitioner, in order. */
  lemma ReplaceReadsBack(rows: seq<QualificationRow>, qs: seq<QualificationDto>, pid: string)
    requires MapAll(qs, pid).Some?
    ensures ForPractitioner(Without(rows, pid) + MapAll(qs, pid).value, pid) == MapAll(qs, pid).value
    ensures |MapAll(qs, pid).value| == |qs|
  {
    MapAllSpec(qs, pid);
    ReplacedLookup(rows, MapAll(qs, pid).value, pid);
  }
}
