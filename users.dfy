/** The users service: idempotent sign-up, profile validation and partial
    update, lookup by identity-provider uid, and the favourites list. */
module Users {
  import opened Base
  import opened Text
  import opened Catalogue

  /** At most this many favourite practitioners are accepted. */
  const FavoritesLimit: int := 25

  datatype User = User(
    id: Id,
    uid: string,
    firstName: string,
    lastName: string,
    email: string,
    countryCode: string,
    avatarUrl: Option<string>,
    phone: Option<string>,
    city: Option<string>,
    address: Option<string>,
    zipCode: Option<string>,
    medicalAidNumber: Option<string>,
    medicalAidPlan: Option<string>,
    medicalAidId: Option<int>,
    favorites: seq<Id>)

  /** A profile update; None is a field left out (or sent as null). */
  datatype UpdateUserRequest = UpdateUserRequest(
    firstName: Option<string>,
    lastName: Option<string>,
    countryCode: Option<string>,
    medicalAid: Option<int>,
    medicalAidNumber: Option<string>,
    medicalAidPlan: Option<string>,
    phone: Option<string>,
    zipCode: Option<string>,
    city: Option<string>,
    address: Option<string>)

  predicate IsBlankName(s: string) {
    |Trim(s)| == 0
  }

  /** The sign-up checks after the uid lookup, in order. */
  function CreateCheck(firstName: string, lastName: string, email: string, countryCode: string,
                       cat: Catalogue): (r: Option<HttpError>)
    ensures r.None? <==> (!IsBlankName(firstName) && !IsBlankName(lastName) && cat.isEmail(email) &&
      countryCode != "" && countryCode in cat.countryCodes)
    ensures r.Some? ==> r.value == BadRequest
  {
    if IsBlankName(firstName) then Some(BadRequest)
    else if IsBlankName(lastName) then Some(BadRequest)
    else if !cat.isEmail(email) then Some(BadRequest)
    else if countryCode == "" || countryCode !in cat.countryCodes then Some(BadRequest)
    else None
  }

  /** The profile-update checks, in order. The last one tests the medical aid
      whether or not the request carries one. */
  function UpdateCheck(req: UpdateUserRequest, cat: Catalogue): (r: Option<HttpError>)
    ensures r.Some? ==> r.value == BadRequest
    ensures r.None? <==>
      && (req.firstName.Some? ==> !IsBlankName(req.firstName.value))
      && (req.lastName.Some? ==> !IsBlankName(req.lastName.value))
      && (req.countryCode.Some? && |Trim(req.countryCode.value)| > 0 ==> req.countryCode.value in cat.countryCodes)
      && req.medicalAid.Some? && req.medicalAid.value in cat.medicalAids
  {
    if req.firstName.Some? && IsBlankName(req.firstName.value) then Some(BadRequest)
    else if req.lastName.Some? && IsBlankName(req.lastName.value) then Some(BadRequest)
    else if req.medicalAid.Some? && req.medicalAid.value != 0 && req.medicalAid.value !in cat.medicalAids then Some(BadRequest)
    else if req.countryCode.Some? && |Trim(req.countryCode.value)| > 0 && req.countryCode.value !in cat.countryCodes then Some(BadRequest)
    else if req.medicalAid.None? || req.medicalAid.value !in cat.medicalAids then Some(BadRequest)
    else None
  }

  /** A request without a medical aid is always refused. */
  lemma UpdateWithoutMedicalAidRefused(req: UpdateUserRequest, cat: Catalogue)
    requires req.medicalAid.None?
    ensures UpdateCheck(req, cat) == Some(BadRequest)
  {
  }

  /** The stored value after a patch: a field given is written trimmed. */
  function Patched(given: Option<string>, current: Option<string>): Option<string> {
    if given.Some? then Some(Trim(given.value)) else current
  }

  function PatchedName(given: Option<string>, current: string): string {
    if given.Some? then Trim(given.value) else current
  }

  /** `removeEmpty` over the update object: fields given are written trimmed,
      the others keep their stored values. */
  function ApplyUpdate(u: User, req: UpdateUserRequest): (v: User)
    ensures v.id == u.id && v.uid == u.uid && v.email == u.email && v.favorites == u.favorites
    ensures v.avatarUrl == u.avatarUrl
    ensures req.firstName.None? ==> v.firstName == u.firstName
    ensures req.firstName.Some? ==> v.firstName == Trim(req.firstName.value)
    ensures req.lastName.None? ==> v.lastName == u.lastName
    ensures req.lastName.Some? ==> v.lastName == Trim(req.lastName.value)
    ensures req.countryCode.None? ==> v.countryCode == u.countryCode
    ensures req.countryCode.Some? ==> v.countryCode == Trim(req.countryCode.value)
    ensures req.phone.None? ==> v.phone == u.phone
    ensures req.phone.Some? ==> v.phone == Some(Trim(req.phone.value))
    ensures req.city.None? ==> v.city == u.city
    ensures req.city.Some? ==> v.city == Some(Trim(req.city.value))
    ensures req.address.None? ==> v.address == u.address
    ensures req.address.Some? ==> v.address == Some(Trim(req.address.value))
    ensures req.zipCode.None? ==> v.zipCode == u.zipCode
    ensures req.zipCode.Some? ==> v.zipCode == Some(Trim(req.zipCode.value))
    ensures req.medicalAidNumber.None? ==> v.medicalAidNumber == u.medicalAidNumber
    ensures req.medicalAidNumber.Some? ==> v.medicalAidNumber == Some(Trim(req.medicalAidNumber.value))
    ensures req.medicalAidPlan.None? ==> v.medicalAidPlan == u.medicalAidPlan
    ensures req.medicalAidPlan.Some? ==> v.medicalAidPlan == Some(Trim(req.medicalAidPlan.value))
    ensures req.medicalAid.None? ==> v.medicalAidId == u.medicalAidId
    ensures req.medicalAid.Some? ==> v.medicalAidId == req.medicalAid
  {
    var medicalAidId := if req.medicalAid.Some? then req.medicalAid else u.medicalAidId;
    User(u.id, u.uid,
         PatchedName(req.firstName, u.firstName),
         PatchedName(req.lastName, u.lastName),
         u.email,
         PatchedName(req.countryCode, u.countryCode),
         u.avatarUrl,
         Patched(req.phone, u.phone),
         Patched(req.city, u.city),
         Patched(req.address, u.address),
         Patched(req.zipCode, u.zipCode),
         Patched(req.medicalAidNumber, u.medicalAidNumber),
         Patched(req.medicalAidPlan, u.medicalAidPlan),
         medicalAidId,
         u.favorites)
  }

  lemma PatchedTwice(given: Option<string>, current: Option<string>)
    ensures Patched(given, Patched(given, current)) == Patched(given, current)
  {
    if given.Some? {
      TrimIdempotent(given.value);
    }
  }

  lemma PatchedNameTwice(given: Option<string>, current: string)
    ensures PatchedName(given, PatchedName(given, current)) == PatchedName(given, current)
  {
    if given.Some? {
      TrimIdempotent(given.value);
    }
  }

  /** Applying the same update twice changes nothing more. */
  lemma ApplyUpdateIdempotent(u: User, req: UpdateUserRequest)
    ensures ApplyUpdate(ApplyUpdate(u, req), req) == ApplyUpdate(u, req)
  {
    PatchedNameTwice(req.firstName, u.firstName);
    PatchedNameTwice(req.lastName, u.lastName);
    PatchedNameTwice(req.countryCode, u.countryCode);
    PatchedTwice(req.phone, u.phone);
    PatchedTwice(req.city, u.city);
    PatchedTwice(req.address, u.address);
    PatchedTwice(req.zipCode, u.zipCode);
    PatchedTwice(req.medicalAidNumber, u.medicalAidNumber);
    PatchedTwice(req.medicalAidPlan, u.medicalAidPlan);
  }

  /** The display name sent to the identity provider, when a trimmed first or
      last name is written. */
  function DisplayName(u: User, req: UpdateUserRequest): Option<string> {
    var first := Patched(req.firstName, None);
    var last := Patched(req.lastName, None);
    if Truthy(first) || Truthy(last) then
      Some(first.GetOr(u.firstName) + " " + last.GetOr(u.lastName))
    else None
  }

  /** `removePractitionerFromFavorites`' filter: every entry equal to `pid` goes,
      the others stay in order. */
  function RemoveAll(s: seq<Id>, pid: Id): (r: seq<Id>)
    ensures forall x :: x in r <==> x in s && x != pid
    ensures |r| == |s| - multiset(s)[pid]
  {
    if |s| == 0 then []
    else
      assert s == [s[0]] + s[1..];
      if s[0] == pid then RemoveAll(s[1..], pid) else [s[0]] + RemoveAll(s[1..], pid)
  }

  /** Removing twice is removing once. */
  lemma {:induction false} RemoveAllIdempotent(s: seq<Id>, pid: Id)
    ensures RemoveAll(RemoveAll(s, pid), pid) == RemoveAll(s, pid)
  {
    if |s| > 0 {
      RemoveAllIdempotent(s[1..], pid);
      if s[0] != pid {
        var rest := RemoveAll(s[1..], pid);
        assert ([s[0]] + rest)[1..] == rest;
      }
    }
  }

  /** Adding an id and then removing it leaves the list without that id and
      otherwise as it was when the id was not there before. */
  lemma {:induction false} RemoveAfterAdd(s: seq<Id>, pid: Id)
    requires pid !in s
    ensures RemoveAll(s + [pid], pid) == s
  {
    if |s| == 0 {
      assert [pid][1..] == [];
    } else {
      assert (s + [pid])[1..] == s[1..] + [pid];
      RemoveAfterAdd(s[1..], pid);
      assert [s[0]] + s[1..] == s;
    }
  }

  function FindByUid(rows: seq<User>, uid: string): (r: Option<nat>)
    ensures r.Some? ==> r.value < |rows| && rows[r.value].uid == uid
    ensures r.None? ==> forall k :: 0 <= k < |rows| ==> rows[k].uid != uid
  {
    if |rows| == 0 then None
    else if rows[|rows| - 1].uid == uid then Some(|rows| - 1)
    else FindByUid(rows[..|rows| - 1], uid)
  }

  function FindById(rows: seq<User>, id: Id): (r: Option<nat>)
    ensures r.Some? ==> r.value < |rows| && rows[r.value].id == id
    ensures r.None? ==> forall k :: 0 <= k < |rows| ==> rows[k].id != id
  {
    if |rows| == 0 then None
    else if rows[|rows| - 1].id == id then Some(|rows| - 1)
    else FindById(rows[..|rows| - 1], id)
  }

  /** Identifiers grow with insertion order and uids are unique. */
  predicate WellKeyed(rows: seq<User>, nextId: Id) {
    && (forall i, j :: 0 <= i < j < |rows| ==> rows[i].id < rows[j].id && rows[i].uid != rows[j].uid)
    && (forall k :: 0 <= k < |rows| ==> rows[k].id < nextId)
  }

  /** A new user with a fresh id and an unused uid keeps the table well keyed. */
  lemma AppendKeepsWellKeyed(rows: seq<User>, u: User, nextId: Id)
    requires WellKeyed(rows, nextId) && u.id == nextId
    requires forall k :: 0 <= k < |rows| ==> rows[k].uid != u.uid
    ensures WellKeyed(rows + [u], nextId + 1)
  {
    var rows' := rows + [u];
    forall i, j | 0 <= i < j < |rows'|
      ensures rows'[i].id < rows'[j].id && rows'[i].uid != rows'[j].uid
    {
      assert rows'[i] == rows[i];
    }
  }

  /** Every user has at most the allowed number of favourites. */
  predicate FavoritesBounded(rows: seq<User>) {
    forall k :: 0 <= k < |rows| ==> |rows[k].favorites| <= FavoritesLimit
  }

  function NewUser(id: Id, uid: string, firstName: string, lastName: string, email: string,
                   countryCode: string, picture: Option<string>): User
  {
    User(id, uid, firstName, lastName, email, countryCode, picture,
         None, None, None, None, None, None, None, [])
  }

  class UsersService {
    var rows: seq<User>
    var nextId: Id
    /** Whether the user table answers during this request. */
    const reachable: bool

    predicate Valid()
      reads this
    {
      WellKeyed(rows, nextId)
    }

    constructor (initial: seq<User>, nextId: Id, reachable: bool)
      requires WellKeyed(initial, nextId)
      ensures Valid() && rows == initial && this.nextId == nextId && this.reachable == reachable
    {
      rows := initial;
      this.nextId := nextId;
      this.reachable := reachable;
    }

    /** Signs a user up, or returns the user that already has this uid
        before any validation. */
    method Create(firstName: string, lastName: string, email: string, countryCode: string, uid: string,
                  picture: Option<string>, cat: Catalogue) returns (r: Result<User>)
      requires Valid()
      modifies this`rows, this`nextId
      ensures Valid()
      ensures !reachable ==> r == Err(InternalServerError) && rows == old(rows)
      ensures reachable && FindByUid(old(rows), uid).Some? ==>
        r == Ok(old(rows)[FindByUid(old(rows), uid).value]) && rows == old(rows)
      ensures reachable && FindByUid(old(rows), uid).None? ==>
        var check := CreateCheck(firstName, lastName, email, countryCode, cat);
        && (check.Some? ==> r == Err(check.value) && rows == old(rows))
        && (check.None? ==>
              var u := NewUser(old(nextId), uid, firstName, lastName, email, countryCode, picture);
              r == Ok(u) && rows == old(rows) + [u] && nextId == old(nextId) + 1)
    {
      if !reachable {
        return Err(InternalServerError);
      }
      var k := FindByUid(rows, uid);
      if k.Some? {
        return Ok(rows[k.value]);
      }
      var check := CreateCheck(firstName, lastName, email, countryCode, cat);
      if check.Some? {
        return Err(check.value);
      }
      var u := NewUser(nextId, uid, firstName, lastName, email, countryCode, picture);
      AppendKeepsWellKeyed(rows, u, nextId);
      rows := rows + [u];
      nextId := nextId + 1;
      return Ok(u);
    }

    /** The user with this uid; NotFound when there is none. */
    method GetUserForUid(uid: string) returns (r: Result<User>)
      ensures !reachable ==> r == Err(InternalServerError)
      ensures reachable ==> r == (if FindByUid(rows, uid).Some? then Ok(rows[FindByUid(rows, uid).value]) else Err(NotFound))
    {
      if !reachable {
        return Err(InternalServerError);
      }
      var k := FindByUid(rows, uid);
      if k.None? {
        return Err(NotFound);
      }
      return Ok(rows[k.value]);
    }

    method GetUserIdForUid(uid: string) returns (r: Result<Id>)
      ensures !reachable ==> r == Err(InternalServerError)
      ensures reachable ==> r == (if FindByUid(rows, uid).Some? then Ok(rows[FindByUid(rows, uid).value].id) else Err(NotFound))
    {
      var user := GetUserForUid(uid);
      if user.Err? {
        return Err(user.error);
      }
      return Ok(user.value.id);
    }

    /** Validates and writes a profile update. The result is the display name
        sent to the identity provider, if any. */
    method Update(req: UpdateUserRequest, uid: string, cat: Catalogue) returns (r: Result<Option<string>>)
      requires Valid()
      modifies this`rows
      ensures Valid()
      ensures !reachable ==> r == Err(InternalServerError) && rows == old(rows)
      ensures reachable && FindByUid(old(rows), uid).None? ==> r == Err(NotFound) && rows == old(rows)
      ensures reachable && FindByUid(old(rows), uid).Some? ==>
        var k := FindByUid(old(rows), uid).value;
        var check := UpdateCheck(req, cat);
        && (check.Some? ==> r == Err(check.value) && rows == old(rows))
        && (check.None? ==>
              rows == old(rows)[k := ApplyUpdate(old(rows)[k], req)] &&
              r == Ok(DisplayName(old(rows)[k], req)))
    {
      var user := GetUserForUid(uid);
      if user.Err? {
        return Err(user.error);
      }
      var check := UpdateCheck(req, cat);
      if check.Some? {
        return Err(check.value);
      }
      var k := FindByUid(rows, uid).value;
      rows := rows[k := ApplyUpdate(rows[k], req)];
      return Ok(DisplayName(user.value, req));
    }

    /** Appends `pid` to the user's favourites unless 25 are already stored;
        that refusal, a missing user and a store failure all surface as
        InternalServerError. */
    method AddPractitionerToFavorites(userId: Id, pid: Id) returns (r: Result<()>)
      requires Valid()
      modifies this`rows
      ensures Valid()
      ensures r.Ok? <==> (reachable && FindById(old(rows), userId).Some? &&
        |old(rows)[FindById(old(rows), userId).value].favorites| < FavoritesLimit)
      ensures r.Err? ==> r.error == InternalServerError && rows == old(rows)
      ensures r.Ok? ==>
        var k := FindById(old(rows), userId).value;
        rows == old(rows)[k := old(rows)[k].(favorites := old(rows)[k].favorites + [pid])]
      ensures FavoritesBounded(old(rows)) ==> FavoritesBounded(rows)
    {
      if !reachable {
        return Err(InternalServerError);
      }
      var k := FindById(rows, userId);
      if k.None? {
        return Err(InternalServerError);
      }
      var favorites := rows[k.value].favorites;
      if |favorites| >= FavoritesLimit {
        return Err(InternalServerError);
      }
      favorites := favorites + [pid];
      rows := rows[k.value := rows[k.value].(favorites := favorites)];
      return Ok(());
    }

    /** Removes every occurrence of `pid` from the user's favourites; an empty
        list is left alone. */
    method RemovePractitionerFromFavorites(userId: Id, pid: Id) returns (r: Result<()>)
      requires Valid()
      modifies this`rows
      ensures Valid()
      ensures r.Ok? <==> reachable && FindById(old(rows), userId).Some?
      ensures r.Err? ==> r.error == InternalServerError && rows == old(rows)
      ensures r.Ok? ==>
        var k := FindById(old(rows), userId).value;
        rows == old(rows)[k := old(rows)[k].(favorites := RemoveAll(old(rows)[k].favorites, pid))]
      ensures FavoritesBounded(old(rows)) ==> FavoritesBounded(rows)
    {
      if !reachable {
        return Err(InternalServerError);
      }
      var k := FindById(rows, userId);
      if k.None? {
        return Err(InternalServerError);
      }
      var favorites := rows[k.value].favorites;
      if |favorites| == 0 {
        return Ok(());
      }
      rows := rows[k.value := rows[k.value].(favorites := RemoveAll(favorites, pid))];
      return Ok(());
    }
  }
}
