/** The practitioner endpoints: get-or-create for the signed-in identity,
    the owner-only read, update and avatar upload, and the schedule
    replacement that follows a profile update. */
module PractitionersController {
  import opened Base
  import opened Catalogue
  import U = Users
  import P = Practitioners
  import S = Schedules

  /** The checks before an avatar is stored, in order: ownership, a file,
      an accepted MIME type. `mimetype` is None when no file came. */
  function UploadCheck(pid: Id, ids: seq<Id>, mimetype: Option<string>, cat: Catalogue): (r: Option<HttpError>)
    ensures r.None? <==> pid in ids && mimetype.Some? && cat.isPhotoType(mimetype.value)
    ensures pid !in ids ==> r == Some(NotFound)
    ensures pid in ids && r.Some? ==> r.value == BadRequest
  {
    if pid !in ids then Some(NotFound)
    else if mimetype.None? then Some(BadRequest)
    else if !cat.isPhotoType(mimetype.value) then Some(BadRequest)
    else None
  }

  /** The practitioner an owner gets back: the first id found belongs to the
      caller, so it is found again with the caller as creator. */
  lemma FirstOwnedIsFound(rows: seq<P.Practitioner>, userId: Id, nextId: Id)
    requires P.IdsIncreasing(rows, nextId) && |P.IdsFor(rows, Some(userId), false)| > 0
    ensures var id := P.IdsFor(rows, Some(userId), false)[0];
      P.FindById(rows, id).Some? && rows[P.FindById(rows, id).value].createdById == userId
  {
    var id := P.IdsFor(rows, Some(userId), false)[0];
    assert id in P.IdsFor(rows, Some(userId), false);
    var k :| 0 <= k < |rows| && rows[k].id == id && Some(rows[k].createdById) == Some(userId);
    var j := P.FindById(rows, id).value;
    assert j == k;
  }

  /** Whether an update goes on to replace the schedules. */
  predicate ReplacesSchedules(req: P.UpdatePractitionerRequest) {
    req.schedules.Some? && |req.schedules.value| != 0
  }

  class PractitionersController {
    const users: U.UsersService
    const practitioners: P.PractitionersService
    const schedules: S.ScheduleStore

    constructor (users: U.UsersService, practitioners: P.PractitionersService, schedules: S.ScheduleStore)
      ensures this.users == users && this.practitioners == practitioners && this.schedules == schedules
    {
      this.users := users;
      this.practitioners := practitioners;
      this.schedules := schedules;
    }

    /** The user id for the identity: looked up, or created (in South Africa)
        when the lookup says NotFound; any other lookup failure leaves none. */
    method ResolveUser(uid: string, firstName: string, lastName: string, email: string, picture: Option<string>,
                       cat: Catalogue) returns (r: Result<Option<Id>>)
      requires users.Valid()
      modifies users`rows, users`nextId
      ensures users.Valid()
      ensures !users.reachable ==> r == Ok(None) && users.rows == old(users.rows)
      ensures users.reachable && U.FindByUid(old(users.rows), uid).Some? ==>
        r == Ok(Some(old(users.rows)[U.FindByUid(old(users.rows), uid).value].id)) && users.rows == old(users.rows)
      ensures users.reachable && U.FindByUid(old(users.rows), uid).None? ==>
        var check := U.CreateCheck(firstName, lastName, email, cat.southAfrica, cat);
        && (check.Some? ==> r == Err(check.value) && users.rows == old(users.rows))
        && (check.None? ==>
              r == Ok(Some(old(users.nextId))) &&
              users.rows == old(users.rows) + [U.NewUser(old(users.nextId), uid, firstName, lastName, email,
                                                         cat.southAfrica, picture)])
    {
      var found := users.GetUserIdForUid(uid);
      if found.Ok? {
        return Ok(Some(found.value));
      }
      if found.error != NotFound {
        return Ok(None);
      }
      var created := users.Create(firstName, lastName, email, cat.southAfrica, uid, picture, cat);
      if created.Err? {
        return Err(created.error);
      }
      return Ok(Some(created.value.id));
    }

    /** Returns the caller's first practitioner if there is one; otherwise
        creates a practitioner and gives it the default week. */
    method Create(uid: string, email: string, picture: Option<string>, req: P.CreatePractitionerRequest,
                  cat: Catalogue) returns (r: Result<P.Practitioner>)
      requires users.Valid() && practitioners.Valid() && schedules.Valid()
      modifies users`rows, users`nextId, practitioners`rows, practitioners`addresses, practitioners`nextId,
        practitioners`nextAddressId, schedules`rows
      ensures users.Valid() && practitioners.Valid() && schedules.Valid()
      ensures (users.reachable && U.FindByUid(old(users.rows), uid).Some? && practitioners.reachable &&
        |P.IdsFor(old(practitioners.rows), Some(old(users.rows)[U.FindByUid(old(users.rows), uid).value].id), false)| > 0) ==>
        var userId := old(users.rows)[U.FindByUid(old(users.rows), uid).value].id;
        var id := P.IdsFor(old(practitioners.rows), Some(userId), false)[0];
        && r.Ok? && r.value.id == id && r.value.createdById == userId && r.value in old(practitioners.rows)
        && users.rows == old(users.rows) && practitioners.rows == old(practitioners.rows)
        && practitioners.addresses == old(practitioners.addresses) && schedules.rows == old(schedules.rows)
      ensures r.Ok? && r.value !in old(practitioners.rows) ==>
        && practitioners.rows == old(practitioners.rows) + [r.value]
        && S.Expand([S.DefaultSchedule], r.value.id).Some?
        && schedules.rows == S.OtherPractitioners(old(schedules.rows), r.value.id) + S.Expand([S.DefaultSchedule], r.value.id).value
      ensures r.Ok? ==> r.value in practitioners.rows
      ensures !users.reachable ==> r.Err?
      ensures users.reachable && U.FindByUid(old(users.rows), uid).None? ==>
        var check := U.CreateCheck(req.firstName, req.lastName, email, cat.southAfrica, cat);
        && (check.Some? ==> r == Err(check.value) && users.rows == old(users.rows))
        && (check.None? ==>
              users.rows == old(users.rows) + [U.NewUser(old(users.nextId), uid, req.firstName, req.lastName, email,
                                                         cat.southAfrica, picture)])
    {
      var userId := ResolveUser(uid, req.firstName, req.lastName, email, picture, cat);
      if userId.Err? {
        return Err(userId.error);
      }
      var ids := practitioners.GetPractitionersIdsForUserId(userId.value, false);
      if ids.Err? {
        return Err(ids.error);
      }
      if |ids.value| != 0 {
        if userId.value.None? {
          P.NoUserOwnsNothing(practitioners.rows);
          assert false;
        }
        FirstOwnedIsFound(practitioners.rows, userId.value.value, practitioners.nextId);
        var found := practitioners.GetPractitionerByUserId(ids.value[0], userId.value);
        if found.Err? || found.value.None? {
          // reading the schedules of a missing practitioner fails
          return Err(InternalServerError);
        }
        return Ok(found.value.value);
      }
      var created := practitioners.CreatePractitioner(userId.value, req, cat);
      if created.Err? {
        return Err(created.error);
      }
      assert created.value !in old(practitioners.rows);
      var week := schedules.InjectDefaultSchedule(created.value.id);
      if week.Err? {
        return Err(week.error);
      }
      return Ok(created.value);
    }

    /** The practitioner, if the caller created it; NotFound otherwise. */
    method Get(uid: string, pid: Id) returns (r: Result<P.Practitioner>)
      ensures r.Ok? <==> (
        && users.reachable && U.FindByUid(users.rows, uid).Some? && practitioners.reachable
        && P.FindById(practitioners.rows, pid).Some?
        && practitioners.rows[P.FindById(practitioners.rows, pid).value].createdById ==
             users.rows[U.FindByUid(users.rows, uid).value].id)
      ensures r.Ok? ==> r.value == practitioners.rows[P.FindById(practitioners.rows, pid).value]
      ensures (users.reachable && U.FindByUid(users.rows, uid).Some? && practitioners.reachable && r.Err?) ==>
        r.error == NotFound
    {
      var userId := users.GetUserIdForUid(uid);
      if userId.Err? {
        return Err(userId.error);
      }
      var found := practitioners.GetPractitionerByUserId(pid, Some(userId.value));
      if found.Err? {
        return Err(found.error);
      }
      if found.value.None? {
        return Err(NotFound);
      }
      return Ok(found.value.value);
    }

    /** The ids of the practitioners the caller created. */
    method GetPractitionerIds(uid: string) returns (r: Result<seq<Id>>)
      ensures !users.reachable ==> r == Err(InternalServerError)
      ensures users.reachable && U.FindByUid(users.rows, uid).None? ==> r == Err(NotFound)
      ensures users.reachable && U.FindByUid(users.rows, uid).Some? ==>
        r == if practitioners.reachable
          then Ok(P.IdsFor(practitioners.rows, Some(users.rows[U.FindByUid(users.rows, uid).value].id), false))
          else Err(InternalServerError)
    {
      var userId := users.GetUserIdForUid(uid);
      if userId.Err? {
        return Err(userId.error);
      }
      r := practitioners.GetPractitionersIdsForUserId(Some(userId.value), false);
    }

    /** Updates the profile of a practitioner the caller owns, then replaces
        its schedules when a non-empty list came with the request. */
    method Update(uid: string, pid: Id, req: P.UpdatePractitionerRequest, cat: Catalogue) returns (r: Result<()>)
      requires practitioners.Valid() && schedules.Valid()
      modifies practitioners`rows, practitioners`addresses, schedules`rows
      ensures practitioners.Valid() && schedules.Valid()
      ensures (users.reachable && U.FindByUid(users.rows, uid).Some? && practitioners.reachable &&
        pid !in P.IdsFor(old(practitioners.rows), Some(users.rows[U.FindByUid(users.rows, uid).value].id), false)) ==>
        r == Err(NotFound) && practitioners.rows == old(practitioners.rows) &&
        practitioners.addresses == old(practitioners.addresses) && schedules.rows == old(schedules.rows)
      ensures P.UpdateCheck(req, cat).Some? ==>
        r.Err? && practitioners.rows == old(practitioners.rows) && schedules.rows == old(schedules.rows)
      ensures !ReplacesSchedules(req) ==> schedules.rows == old(schedules.rows)
      ensures schedules.rows != old(schedules.rows) ==> r.Ok? && ReplacesSchedules(req)
      ensures r.Ok? ==>
        && users.reachable && U.FindByUid(users.rows, uid).Some?
        && pid in P.IdsFor(old(practitioners.rows), Some(users.rows[U.FindByUid(users.rows, uid).value].id), false)
        && P.UpdateCheck(req, cat).None?
        && practitioners.rows == P.UpdatedRows(old(practitioners.rows), pid, req)
      ensures r.Ok? && ReplacesSchedules(req) ==>
        && S.Expand(req.schedules.value, pid).Some?
        && schedules.rows == S.OtherPractitioners(old(schedules.rows), pid) + S.Expand(req.schedules.value, pid).value
    {
      var userId := users.GetUserIdForUid(uid);
      if userId.Err? {
        return Err(userId.error);
      }
      var ids := practitioners.GetPractitionersIdsForUserId(Some(userId.value), false);
      if ids.Err? {
        return Err(ids.error);
      }
      if pid !in ids.value {
        return Err(NotFound);
      }
      var updated := practitioners.UpdatePractitioner(pid, req, cat);
      if updated.Err? {
        return Err(updated.error);
      }
      if req.schedules.Some? && |req.schedules.value| != 0 {
        var replaced := schedules.ReplaceCurrentSchedules(req.schedules.value, pid);
        if replaced.Err? {
          return Err(replaced.error);
        }
      }
      return Ok(());
    }

    /** The checks before an avatar upload; storing the file is not modelled. */
    method UploadFile(uid: string, pid: Id, mimetype: Option<string>, cat: Catalogue) returns (r: Result<()>)
      ensures r.Ok? <==> (
        && users.reachable && U.FindByUid(users.rows, uid).Some? && practitioners.reachable
        && UploadCheck(pid, P.IdsFor(practitioners.rows, Some(users.rows[U.FindByUid(users.rows, uid).value].id), false),
                       mimetype, cat).None?)
      ensures (users.reachable && U.FindByUid(users.rows, uid).Some? && practitioners.reachable &&
        pid !in P.IdsFor(practitioners.rows, Some(users.rows[U.FindByUid(users.rows, uid).value].id), false)) ==>
        r == Err(NotFound)
    {
      var userId := users.GetUserIdForUid(uid);
      if userId.Err? {
        return Err(userId.error);
      }
      var ids := practitioners.GetPractitionersIdsForUserId(Some(userId.value), false);
      if ids.Err? {
        return Err(ids.error);
      }
      var check := UploadCheck(pid, ids.value, mimetype, cat);
      if check.Some? {
        return Err(check.value);
      }
      return Ok(());
    }
  }
}
