/** Requests for COVID testing by Next Pathology: the date and head-count
    checks, the stored row, and the service-account credentials cached
    across requests. The spreadsheet the row is then copied to is not part
    of this model. */
module Extras {
  import opened Base
  import opened Clock

  datatype TestingTypesCount = TestingTypesCount(pctCount: int, antigenCount: int, antibodyCount: int)

  datatype CovidTestingRequest = CovidTestingRequest(
    fullName: string,
    email: string,
    phoneNumber: string,
    fullAddress: string,
    numberOfPeople: int,
    date: Instant,
    notes: Option<string>,
    testingTypesCount: TestingTypesCount)

  /** The stored counts, under their column names. */
  datatype StoredCounts = StoredCounts(pctTestingCount: int, antigenTestingCount: int, antibodyTestingCount: int)

  datatype CovidTestingRow = CovidTestingRow(
    id: Id,
    fullName: string,
    email: string,
    phone: string,
    fullAddress: string,
    numberOfPeople: int,
    testingTypesCount: StoredCounts,
    userId: Id,
    date: Instant,
    notes: Option<string>)

  /** The parsed credentials file; a missing key is None. */
  datatype Credentials = Credentials(clientEmail: Option<string>, privateKey: Option<string>)

  predicate Complete(c: Credentials) {
    Truthy(c.clientEmail) && Truthy(c.privateKey)
  }

  /** The start of the Johannesburg calendar day, in whole days. */
  lemma JohannesburgDayStartOfDay(t: Instant)
    ensures JohannesburgDayStart(t) == JohannesburgDay(t) * 86400 - JohannesburgOffset
  {
    var x := t + JohannesburgOffset;
    assert x == (x / 86400) * 86400 + x % 86400;
  }

  /** The date check: the preferred day, in Johannesburg, may not precede
      today there. */
  function DateCheck(date: Instant, now: Instant): (r: Option<HttpError>)
    ensures r.Some? ==> r.value == BadRequest
    ensures r.None? <==> JohannesburgDay(date) >= JohannesburgDay(now)
  {
    JohannesburgDayStartOfDay(date);
    JohannesburgDayStartOfDay(now);
    if JohannesburgDayStart(date) < JohannesburgDayStart(now) then Some(BadRequest) else None
  }

  /** A time later today in Johannesburg, or earlier today, is accepted. */
  lemma SameDayAccepted(date: Instant, now: Instant)
    requires JohannesburgDayStart(date) == JohannesburgDayStart(now)
    ensures DateCheck(date, now).None?
  {
  }

  /** Midnight in Johannesburg, 22:00 UTC the day before, already counts as
      the next day: a request made at 21:59 UTC for 22:00 UTC is for
      tomorrow, and one made at 22:00 UTC for 21:59 UTC is refused. */
  lemma DayBoundaryIsJohannesburgMidnight()
    ensures DateCheck(SecondsPerDay - JohannesburgOffset, SecondsPerDay - JohannesburgOffset - 60).None?
    ensures JohannesburgDay(SecondsPerDay - JohannesburgOffset) == JohannesburgDay(SecondsPerDay - JohannesburgOffset - 60) + 1
    ensures DateCheck(SecondsPerDay - JohannesburgOffset - 60, SecondsPerDay - JohannesburgOffset) == Some(BadRequest)
  {
  }

  /** The count check: the number of people is the sum of the tests asked for. */
  function CountCheck(req: CovidTestingRequest): (r: Option<HttpError>)
    ensures r.None? <==> (req.numberOfPeople ==
      req.testingTypesCount.pctCount + req.testingTypesCount.antibodyCount + req.testingTypesCount.antigenCount)
    ensures r.Some? ==> r.value == BadRequest
  {
    var c := req.testingTypesCount;
    if req.numberOfPeople != c.pctCount + c.antibodyCount + c.antigenCount then Some(BadRequest) else None
  }

  /** The row stored for an accepted request. */
  function Row(id: Id, userId: Id, req: CovidTestingRequest): (row: CovidTestingRow)
    ensures row.date == JohannesburgDayStart(req.date) && row.date <= req.date < row.date + SecondsPerDay
    ensures row.testingTypesCount.pctTestingCount == req.testingTypesCount.pctCount
    ensures row.testingTypesCount.antigenTestingCount == req.testingTypesCount.antigenCount
    ensures row.testingTypesCount.antibodyTestingCount == req.testingTypesCount.antibodyCount
    ensures row.phone == req.phoneNumber && row.userId == userId
  {
    var c := req.testingTypesCount;
    CovidTestingRow(id, req.fullName, req.email, req.phoneNumber, req.fullAddress, req.numberOfPeople,
                    StoredCounts(c.pctCount, c.antigenCount, c.antibodyCount),
                    userId, JohannesburgDayStart(req.date), req.notes)
  }

  /** A stored row keeps the head count equal to the sum of its counts. */
  lemma RowCountsAddUp(id: Id, userId: Id, req: CovidTestingRequest)
    requires CountCheck(req).None?
    ensures var row := Row(id, userId, req);
      row.numberOfPeople ==
        row.testingTypesCount.pctTestingCount + row.testingTypesCount.antigenTestingCount +
        row.testingTypesCount.antibodyTestingCount
  {
  }

  class ExtrasService {
    var rows: seq<CovidTestingRow>
    var nextId: Id
    /** The credentials read so far; None until a file was parsed. */
    var credentials: Option<Credentials>
    /** Whether the request table answers during this request. */
    const reachable: bool

    constructor (initial: seq<CovidTestingRow>, nextId: Id, reachable: bool)
      ensures rows == initial && this.nextId == nextId && this.reachable == reachable
      ensures credentials.None?
    {
      rows := initial;
      this.nextId := nextId;
      this.reachable := reachable;
      credentials := None;
    }

    /** Reads the credentials file; `file` is its parsed content, or None
        when it cannot be read or parsed. Parsed content is kept even when
        a key is missing, and the call then fails. */
    method LoadCredentialsForServiceAccount(file: Option<Credentials>) returns (r: Result<()>)
      modifies this`credentials
      ensures file.None? ==> credentials == old(credentials) && r == Err(InternalServerError)
      ensures file.Some? ==> credentials == file && (r.Ok? <==> Complete(file.value))
      ensures r.Err? ==> r.error == InternalServerError
    {
      if file.None? {
        return Err(InternalServerError);
      }
      credentials := file;
      if !Truthy(credentials.value.clientEmail) || !Truthy(credentials.value.privateKey) {
        return Err(InternalServerError);
      }
      return Ok(());
    }

    /** Checks the date and the counts, stores the row, then loads the
        credentials unless some were cached. */
    method RequestCovidTestingWithNextPath(userId: Id, req: CovidTestingRequest, now: Instant,
                                           file: Option<Credentials>) returns (r: Result<CovidTestingRow>)
      modifies this`rows, this`nextId, this`credentials
      ensures DateCheck(req.date, now).Some? || CountCheck(req).Some? ==>
        r == Err(BadRequest) && rows == old(rows) && credentials == old(credentials)
      ensures DateCheck(req.date, now).None? && CountCheck(req).None? ==>
        && (!reachable ==> r == Err(InternalServerError) && rows == old(rows) && credentials == old(credentials))
        && (reachable ==>
              var row := Row(old(nextId), userId, req);
              && rows == old(rows) + [row] && nextId == old(nextId) + 1
              && (old(credentials).Some? ==> credentials == old(credentials) && r == Ok(row))
              && (old(credentials).None? ==>
                    credentials == file &&
                    r == (if file.Some? && Complete(file.value) then Ok(row) else Err(InternalServerError))))
    {
      var dateCheck := DateCheck(req.date, now);
      if dateCheck.Some? {
        return Err(dateCheck.value);
      }
      var countCheck := CountCheck(req);
      if countCheck.Some? {
        return Err(countCheck.value);
      }
      if !reachable {
        return Err(InternalServerError);
      }
      var row := Row(nextId, userId, req);
      rows := rows + [row];
      nextId := nextId + 1;
      if credentials.None? {
        var loaded := LoadCredentialsForServiceAccount(file);
        if loaded.Err? {
          return Err(loaded.error);
        }
      }
      return Ok(row);
    }
  }
}
