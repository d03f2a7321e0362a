/** The practitioners service: creating a practitioner with its blank
    address, the ownership lookups, and the validated partial update of the
    profile and its address. */
module Practitioners {
  import opened Base
  import opened Text
  import opened Catalogue
  import opened Categories
  import opened Schedules

  /** Minutes per appointment unless changed (the column default). */
  const DefaultTimeSlot: nat := 30

  /** A point on the globe as given in a request; only compared with bounds. */
  datatype Location = Location(latitude: real, longitude: real)

  /** `address.location` in an update: left out, sent as null, or a point. */
  datatype LocationInput = LocationAbsent | LocationNull | LocationAt(point: Location)

  datatype Address = Address(
    id: Id,
    line1: string,
    line2: string,
    suburb: string,
    city: string,
    postalCode: string,
    stateProvinceCounty: string,
    location: Option<Location>,
    countryCode: string)

  /** The address part of an update; None is a field left out. */
  datatype AddressDto = AddressDto(
    line1: Option<string>,
    line2: Option<string>,
    suburb: Option<string>,
    city: Option<string>,
    postalCode: Option<string>,
    stateProvinceCounty: Option<string>,
    location: LocationInput)

  datatype Practitioner = Practitioner(
    id: Id,
    title: string,
    email: Option<string>,
    phone: Option<string>,
    bio: Option<string>,
    addressId: Option<Id>,
    appointmentTimeSlot: nat,
    pricingFrom: Option<real>,
    pricingTo: Option<real>,
    medicalAids: seq<int>,
    category: Category,
    createdById: Id,
    isActive: bool,
    gender: int,
    languages: seq<int>)

  datatype CreatePractitionerRequest = CreatePractitionerRequest(
    firstName: string,
    lastName: string,
    email: string,
    category: Category,
    gender: int)

  /** A profile update; None is a field left out (or sent as null). */
  datatype UpdatePractitionerRequest = UpdatePractitionerRequest(
    title: Option<string>,
    email: Option<string>,
    phone: Option<string>,
    bio: Option<string>,
    address: Option<AddressDto>,
    pricingFrom: Option<real>,
    pricingTo: Option<real>,
    medicalAids: Option<seq<int>>,
    isActive: Option<bool>,
    schedules: Option<seq<ScheduleDto>>,
    languages: Option<seq<int>>)

  // ------------------------------------------------------------ creation

  /** The practitioner's title built from the names. */
  function CreateTitle(firstName: string, lastName: string): (t: string)
    ensures |t| == |firstName| + |lastName| + 5
    ensures t[..4] == "Dr. " && t[4..4 + |firstName|] == firstName
    ensures t[4 + |firstName|] == ' ' && t[|t| - |lastName|..] == lastName
  {
    var t := "Dr. " + firstName + " " + lastName;
    assert t[..4] == "Dr. ";
    assert t[4..4 + |firstName|] == firstName;
    assert t[|t| - |lastName|..] == lastName;
    t
  }

  /** The creation checks, in order. */
  function CreateCheck(req: CreatePractitionerRequest, cat: Catalogue): (r: Option<HttpError>)
    ensures r.None? <==> (!IsBlank(req.firstName) && !IsBlank(req.lastName) && cat.isEmail(req.email))
    ensures r.Some? ==> r.value == BadRequest
  {
    TrimEmptyIffBlank(req.firstName);
    TrimEmptyIffBlank(req.lastName);
    if |Trim(req.firstName)| == 0 then Some(BadRequest)
    else if |Trim(req.lastName)| == 0 then Some(BadRequest)
    else if !cat.isEmail(req.email) then Some(BadRequest)
    else None
  }

  /** The blank South African address created with every practitioner. */
  function BlankAddress(id: Id, cat: Catalogue): Address {
    Address(id, "", "", "", "", "", "", None, cat.southAfrica)
  }

  function NewPractitioner(id: Id, req: CreatePractitionerRequest, createdBy: Id, addressId: Id,
                           cat: Catalogue): Practitioner
  {
    Practitioner(id, CreateTitle(req.firstName, req.lastName), Some(req.email), None, None,
                 Some(addressId), DefaultTimeSlot, None, None, [], req.category, createdBy,
                 false, req.gender, [cat.english])
  }

  // ------------------------------------------------------------ lookups

  /** The practitioners a user may act for: those the user created, or all
      of them for a power user. A missing user id matches no row. */
  function IdsFor(rows: seq<Practitioner>, userId: Option<Id>, isPowerUser: bool): (ids: seq<Id>)
    ensures |ids| <= |rows|
    ensures forall id :: id in ids <==>
      exists k :: 0 <= k < |rows| && rows[k].id == id && (isPowerUser || Some(rows[k].createdById) == userId)
  {
    if |rows| == 0 then []
    else
      var init := IdsFor(rows[..|rows| - 1], userId, isPowerUser);
      var last := rows[|rows| - 1];
      assert forall k :: 0 <= k < |rows| - 1 ==> rows[..|rows| - 1][k] == rows[k];
      if isPowerUser || Some(last.createdById) == userId then init + [last.id] else init
  }

  /** A power user may act for every practitioner. */
  lemma {:induction false} PowerUserSeesAll(rows: seq<Practitioner>, userId: Option<Id>)
    ensures |IdsFor(rows, userId, true)| == |rows|
    ensures forall k :: 0 <= k < |rows| ==> IdsFor(rows, userId, true)[k] == rows[k].id
  {
    if |rows| > 0 {
      PowerUserSeesAll(rows[..|rows| - 1], userId);
    }
  }

  /** Without a user id, an ordinary caller owns nothing. */
  lemma {:induction false} NoUserOwnsNothing(rows: seq<Practitioner>)
    ensures IdsFor(rows, None, false) == []
  {
    if |rows| > 0 {
      NoUserOwnsNothing(rows[..|rows| - 1]);
    }
  }

  function FindById(rows: seq<Practitioner>, id: Id): (r: Option<nat>)
    ensures r.Some? ==> r.value < |rows| && rows[r.value].id == id
    ensures r.None? ==> forall k :: 0 <= k < |rows| ==> rows[k].id != id
  {
    if |rows| == 0 then None
    else if rows[|rows| - 1].id == id then Some(|rows| - 1)
    else FindById(rows[..|rows| - 1], id)
  }

  function FindAddress(addresses: seq<Address>, id: Id): (r: Option<nat>)
    ensures r.Some? ==> r.value < |addresses| && addresses[r.value].id == id
    ensures r.None? ==> forall k :: 0 <= k < |addresses| ==> addresses[k].id != id
  {
    if |addresses| == 0 then None
    else if addresses[|addresses| - 1].id == id then Some(|addresses| - 1)
    else FindAddress(addresses[..|addresses| - 1], id)
  }

  // ------------------------------------------------------------ update

  predicate OnEarth(p: Location) {
    -90.0 <= p.latitude <= 90.0 && -180.0 <= p.longitude <= 180.0
  }

  predicate AllIn(xs: Option<seq<int>>, members: set<int>) {
    xs.Some? ==> forall x :: x in xs.value ==> x in members
  }

  /** The update checks, in order; each failure is BadRequest. */
  function UpdateCheck(req: UpdatePractitionerRequest, cat: Catalogue): (r: Option<HttpError>)
    ensures r.Some? ==> r.value == BadRequest
    ensures r.None? <==>
      && !(Truthy(req.title) && IsBlank(req.title.value))
      && (Truthy(req.email) ==> cat.isEmail(Trim(req.email.value)))
      && (req.pricingFrom.Some? ==> req.pricingFrom.value >= 0.0)
      && (req.pricingTo.Some? ==> req.pricingTo.value >= 0.0)
      && AllIn(req.medicalAids, cat.medicalAids)
      && (req.address.Some? && req.address.value.location.LocationAt? ==> OnEarth(req.address.value.location.point))
      && AllIn(req.languages, cat.languages)
  {
    TrimEmptyIffBlank(req.title.GetOr(""));
    if Truthy(req.title) && |Trim(req.title.value)| == 0 then Some(BadRequest)
    else if Truthy(req.email) && !cat.isEmail(Trim(req.email.value)) then Some(BadRequest)
    else if req.pricingFrom.Some? && req.pricingFrom.value != 0.0 && req.pricingFrom.value < 0.0 then Some(BadRequest)
    else if req.pricingTo.Some? && req.pricingTo.value != 0.0 && req.pricingTo.value < 0.0 then Some(BadRequest)
    else if req.medicalAids.Some? && exists m :: m in req.medicalAids.value && m !in cat.medicalAids then Some(BadRequest)
    else if req.address.Some? && req.address.value.location.LocationAt? && !OnEarth(req.address.value.location.point) then Some(BadRequest)
    else if req.languages.Some? && exists l :: l in req.languages.value && l !in cat.languages then Some(BadRequest)
    else None
  }

  /** An empty title is not checked, while a whitespace-only one is refused. */
  lemma TitleChecks(req: UpdatePractitionerRequest, cat: Catalogue)
    ensures req.title == Some("") ==> UpdateCheck(req, cat) == UpdateCheck(req.(title := None), cat)
    ensures req.title == Some(" ") ==> UpdateCheck(req, cat) == Some(BadRequest)
  {
    if req.title == Some(" ") {
      assert IsWhitespace(' ');
      assert IsBlank(" ");
    }
  }

  function Patched(given: Option<string>, current: Option<string>): Option<string> {
    if given.Some? then Some(Trim(given.value)) else current
  }

  /** Whether the practitioner part of the update has a defined field. */
  predicate AnyPractitionerField(req: UpdatePractitionerRequest) {
    req.medicalAids.Some? || req.languages.Some? || req.pricingFrom.Some? || req.pricingTo.Some? ||
    req.title.Some? || req.email.Some? || req.phone.Some? || req.isActive.Some? || req.bio.Some?
  }

  /** The stored practitioner after the update: defined fields are written,
      strings trimmed, and every other column keeps its value. */
  function PatchPractitioner(p: Practitioner, req: UpdatePractitionerRequest): (q: Practitioner)
    ensures q.id == p.id && q.createdById == p.createdById && q.addressId == p.addressId
    ensures q.category == p.category && q.appointmentTimeSlot == p.appointmentTimeSlot && q.gender == p.gender
    ensures req.title.Some? ==> q.title == Trim(req.title.value)
    ensures req.title.None? ==> q.title == p.title
    ensures req.email.Some? ==> q.email == Some(Trim(req.email.value))
    ensures req.email.None? ==> q.email == p.email
    ensures req.phone.Some? ==> q.phone == Some(Trim(req.phone.value))
    ensures req.phone.None? ==> q.phone == p.phone
    ensures req.bio.Some? ==> q.bio == Some(Trim(req.bio.value))
    ensures req.bio.None? ==> q.bio == p.bio
    ensures q.pricingFrom == (if req.pricingFrom.Some? then req.pricingFrom else p.pricingFrom)
    ensures q.pricingTo == (if req.pricingTo.Some? then req.pricingTo else p.pricingTo)
    ensures req.medicalAids.Some? ==> q.medicalAids == req.medicalAids.value
    ensures req.medicalAids.None? ==> q.medicalAids == p.medicalAids
    ensures req.languages.Some? ==> q.languages == req.languages.value
    ensures req.languages.None? ==> q.languages == p.languages
    ensures req.isActive.Some? ==> q.isActive == req.isActive.value
    ensures req.isActive.None? ==> q.isActive == p.isActive
  {
    Practitioner(
      p.id, if req.title.Some? then Trim(req.title.value) else p.title,
      Patched(req.email, p.email), Patched(req.phone, p.phone), Patched(req.bio, p.bio),
      p.addressId, p.appointmentTimeSlot,
      if req.pricingFrom.Some? then req.pricingFrom else p.pricingFrom,
      if req.pricingTo.Some? then req.pricingTo else p.pricingTo,
      req.medicalAids.GetOr(p.medicalAids), p.category, p.createdById,
      req.isActive.GetOr(p.isActive), p.gender, req.languages.GetOr(p.languages))
  }

  /** An update without a practitioner field leaves the row as stored. */
  lemma PatchPractitionerWithoutFieldsKeeps(p: Practitioner, req: UpdatePractitionerRequest)
    requires !AnyPractitionerField(req)
    ensures PatchPractitioner(p, req) == p
  {
  }

  lemma PatchedTwice(given: Option<string>, current: Option<string>)
    ensures Patched(given, Patched(given, current)) == Patched(given, current)
  {
    if given.Some? {
      TrimIdempotent(given.value);
    }
  }

  /** Sending the same update again changes nothing more. */
  lemma PatchPractitionerIdempotent(p: Practitioner, req: UpdatePractitionerRequest)
    ensures PatchPractitioner(PatchPractitioner(p, req), req) == PatchPractitioner(p, req)
  {
    if req.title.Some? {
      TrimIdempotent(req.title.value);
    }
    PatchedTwice(req.email, p.email);
    PatchedTwice(req.phone, p.phone);
    PatchedTwice(req.bio, p.bio);
  }

  /** Whether the address part of the update has a defined field. */
  predicate AnyAddressField(dto: AddressDto) {
    dto.city.Some? || dto.line1.Some? || dto.line2.Some? || dto.postalCode.Some? ||
    dto.stateProvinceCounty.Some? || dto.suburb.Some? || !dto.location.LocationAbsent?
  }

  function PatchedText(given: Option<string>, current: string): string {
    if given.Some? then Trim(given.value) else current
  }

  /** The stored address after the update: a location left out is kept, null
      clears it, a point replaces it; the country never changes. */
  function PatchAddress(a: Address, dto: AddressDto): (b: Address)
    ensures b.id == a.id && b.countryCode == a.countryCode
    ensures dto.location.LocationAbsent? ==> b.location == a.location
    ensures dto.location.LocationNull? ==> b.location.None?
    ensures dto.location.LocationAt? ==> b.location == Some(dto.location.point)
    ensures dto.city.Some? ==> b.city == Trim(dto.city.value)
    ensures dto.city.None? ==> b.city == a.city
    ensures dto.line1.Some? ==> b.line1 == Trim(dto.line1.value)
    ensures dto.line1.None? ==> b.line1 == a.line1
    ensures dto.line2.Some? ==> b.line2 == Trim(dto.line2.value)
    ensures dto.line2.None? ==> b.line2 == a.line2
    ensures dto.suburb.Some? ==> b.suburb == Trim(dto.suburb.value)
    ensures dto.suburb.None? ==> b.suburb == a.suburb
    ensures dto.postalCode.Some? ==> b.postalCode == Trim(dto.postalCode.value)
    ensures dto.postalCode.None? ==> b.postalCode == a.postalCode
    ensures dto.stateProvinceCounty.Some? ==> b.stateProvinceCounty == Trim(dto.stateProvinceCounty.value)
    ensures dto.stateProvinceCounty.None? ==> b.stateProvinceCounty == a.stateProvinceCounty
    ensures !AnyAddressField(dto) ==> b == a
  {
    a.(
      city := PatchedText(dto.city, a.city),
      line1 := PatchedText(dto.line1, a.line1),
      line2 := PatchedText(dto.line2, a.line2),
      postalCode := PatchedText(dto.postalCode, a.postalCode),
      stateProvinceCounty := PatchedText(dto.stateProvinceCounty, a.stateProvinceCounty),
      suburb := PatchedText(dto.suburb, a.suburb),
      location := match dto.location
        case LocationAbsent => a.location
        case LocationNull => None
        case LocationAt(point) => Some(point))
  }

  /** The row list with the practitioner `id`, if stored, patched. */
  function UpdatedRows(rows: seq<Practitioner>, id: Id, req: UpdatePractitionerRequest): seq<Practitioner> {
    var k := FindById(rows, id);
    if k.Some? then rows[k.value := PatchPractitioner(rows[k.value], req)] else rows
  }

  /** The address list with the address `id`, if stored, patched. */
  function UpdatedAddresses(addresses: seq<Address>, id: Id, dto: AddressDto): seq<Address> {
    var k := FindAddress(addresses, id);
    if k.Some? then addresses[k.value := PatchAddress(addresses[k.value], dto)] else addresses
  }

  /** The address row of the practitioner, as the raw lookup reads it. */
  function AddressIdOf(rows: seq<Practitioner>, id: Id): Option<Id> {
    var k := FindById(rows, id);
    if k.Some? then rows[k.value].addressId else None
  }

  /** Identifiers grow with insertion order and stay below the next one. */
  predicate IdsIncreasing(rows: seq<Practitioner>, nextId: Id) {
    && (forall i, j :: 0 <= i < j < |rows| ==> rows[i].id < rows[j].id)
    && (forall k :: 0 <= k < |rows| ==> rows[k].id < nextId)
  }

  predicate AddressIdsIncreasing(addresses: seq<Address>, nextId: Id) {
    && (forall i, j :: 0 <= i < j < |addresses| ==> addresses[i].id < addresses[j].id)
    && (forall k :: 0 <= k < |addresses| ==> addresses[k].id < nextId)
  }

  lemma AppendKeepsIds(rows: seq<Practitioner>, p: Practitioner, nextId: Id)
    requires IdsIncreasing(rows, nextId) && p.id == nextId
    ensures IdsIncreasing(rows + [p], nextId + 1)
  {
  }

  lemma AppendKeepsAddressIds(addresses: seq<Address>, a: Address, nextId: Id)
    requires AddressIdsIncreasing(addresses, nextId) && a.id == nextId
    ensures AddressIdsIncreasing(addresses + [a], nextId + 1)
  {
  }

  /** Lists with the same identifiers at the same places answer a lookup alike. */
  lemma {:induction false} SameIdsSameFind(a: seq<Practitioner>, b: seq<Practitioner>, id: Id)
    requires |a| == |b| && forall k :: 0 <= k < |a| ==> a[k].id == b[k].id
    ensures FindById(a, id) == FindById(b, id)
  {
    if |a| > 0 {
      SameIdsSameFind(a[..|a| - 1], b[..|b| - 1], id);
    }
  }

  /** Patching the profile does not move its address. */
  lemma PatchKeepsAddressId(rows: seq<Practitioner>, id: Id, req: UpdatePractitionerRequest)
    ensures AddressIdOf(UpdatedRows(rows, id, req), id) == AddressIdOf(rows, id)
  {
    SameIdsSameFind(rows, UpdatedRows(rows, id, req), id);
  }

  lemma PatchKeepsIds(rows: seq<Practitioner>, id: Id, req: UpdatePractitionerRequest, nextId: Id)
    requires IdsIncreasing(rows, nextId)
    ensures IdsIncreasing(UpdatedRows(rows, id, req), nextId)
    ensures |UpdatedRows(rows, id, req)| == |rows|
  {
  }

  lemma PatchKeepsAddressIds(addresses: seq<Address>, id: Id, dto: AddressDto, nextId: Id)
    requires AddressIdsIncreasing(addresses, nextId)
    ensures AddressIdsIncreasing(UpdatedAddresses(addresses, id, dto), nextId)
  {
  }

  /** The practitioner and address tables. */
  class PractitionersService {
    var rows: seq<Practitioner>
    var addresses: seq<Address>
    var nextId: Id
    var nextAddressId: Id
    /** Whether the tables answer during this request. */
    const reachable: bool

    predicate Valid()
      reads this
    {
      IdsIncreasing(rows, nextId) && AddressIdsIncreasing(addresses, nextAddressId)
    }

    constructor (initial: seq<Practitioner>, nextId: Id, initialAddresses: seq<Address>, nextAddressId: Id,
                 reachable: bool)
      requires IdsIncreasing(initial, nextId) && AddressIdsIncreasing(initialAddresses, nextAddressId)
      ensures Valid() && rows == initial && addresses == initialAddresses
      ensures this.nextId == nextId && this.nextAddressId == nextAddressId && this.reachable == reachable
    {
      rows := initial;
      addresses := initialAddresses;
      this.nextId := nextId;
      this.nextAddressId := nextAddressId;
      this.reachable := reachable;
    }

    /** Creates a practitioner for `userId`: first the blank address, then the
        practitioner row. A missing user id fails on the non-nullable creator
        column after the address was saved. */
    method CreatePractitioner(userId: Option<Id>, req: CreatePractitionerRequest, cat: Catalogue)
      returns (r: Result<Practitioner>)
      requires Valid()
      modifies this`rows, this`addresses, this`nextId, this`nextAddressId
      ensures Valid()
      ensures CreateCheck(req, cat).Some? ==>
        r == Err(BadRequest) && rows == old(rows) && addresses == old(addresses)
      ensures CreateCheck(req, cat).None? && !reachable ==>
        r == Err(InternalServerError) && rows == old(rows) && addresses == old(addresses)
      ensures CreateCheck(req, cat).None? && reachable ==>
        && addresses == old(addresses) + [BlankAddress(old(nextAddressId), cat)]
        && nextAddressId == old(nextAddressId) + 1
        && (userId.None? ==> r == Err(InternalServerError) && rows == old(rows))
        && (userId.Some? ==>
              var p := NewPractitioner(old(nextId), req, userId.value, old(nextAddressId), cat);
              r == Ok(p) && rows == old(rows) + [p] && nextId == old(nextId) + 1)
    {
      var check := CreateCheck(req, cat);
      if check.Some? {
        return Err(BadRequest);
      }
      if !reachable {
        return Err(InternalServerError);
      }
      var address := BlankAddress(nextAddressId, cat);
      AppendKeepsAddressIds(addresses, address, nextAddressId);
      addresses := addresses + [address];
      nextAddressId := nextAddressId + 1;
      if userId.None? {
        return Err(InternalServerError);
      }
      var p := NewPractitioner(nextId, req, userId.value, address.id, cat);
      AppendKeepsIds(rows, p, nextId);
      rows := rows + [p];
      nextId := nextId + 1;
      return Ok(p);
    }

    method GetPractitionersIdsForUserId(userId: Option<Id>, isPowerUser: bool) returns (r: Result<seq<Id>>)
      ensures r == if reachable then Ok(IdsFor(rows, userId, isPowerUser)) else Err(InternalServerError)
    {
      if !reachable {
        return Err(InternalServerError);
      }
      return Ok(IdsFor(rows, userId, isPowerUser));
    }

    /** The practitioner `id` if `userId` created it; otherwise no value. */
    method GetPractitionerByUserId(id: Id, userId: Option<Id>) returns (r: Result<Option<Practitioner>>)
      ensures !reachable ==> r == Err(InternalServerError)
      ensures reachable ==> r.Ok? && (r.value.Some? <==>
        (FindById(rows, id).Some? && Some(rows[FindById(rows, id).value].createdById) == userId))
      ensures r.Ok? && r.value.Some? ==>
        r.value.value == rows[FindById(rows, id).value] && r.value.value.id == id &&
        Some(r.value.value.createdById) == userId
    {
      if !reachable {
        return Err(InternalServerError);
      }
      var k := FindById(rows, id);
      if k.Some? && Some(rows[k.value].createdById) == userId {
        return Ok(Some(rows[k.value]));
      }
      return Ok(None);
    }

    method GetPractitionerById(id: Id) returns (r: Result<Practitioner>)
      ensures !reachable ==> r == Err(InternalServerError)
      ensures reachable ==> r == (if FindById(rows, id).Some? then Ok(rows[FindById(rows, id).value]) else Err(NotFound))
    {
      if !reachable {
        return Err(InternalServerError);
      }
      var k := FindById(rows, id);
      if k.None? {
        return Err(NotFound);
      }
      return Ok(rows[k.value]);
    }

    /** Validates and writes a profile update. The practitioner row is patched
        first; an address update then needs the practitioner's address id, and
        fails with no address to update. Nothing is written when no field is
        defined. */
    method UpdatePractitioner(id: Id, req: UpdatePractitionerRequest, cat: Catalogue) returns (r: Result<()>)
      requires Valid()
      modifies this`rows, this`addresses
      ensures Valid()
      ensures UpdateCheck(req, cat).Some? ==>
        r == Err(BadRequest) && rows == old(rows) && addresses == old(addresses)
      ensures UpdateCheck(req, cat).None? && !reachable ==>
        rows == old(rows) && addresses == old(addresses) &&
        (r.Err? <==> AnyPractitionerField(req) || (req.address.Some? && AnyAddressField(req.address.value)))
      ensures UpdateCheck(req, cat).None? && reachable ==>
        && rows == UpdatedRows(old(rows), id, req)
        && (req.address.None? || !AnyAddressField(req.address.value) ==> r == Ok(()) && addresses == old(addresses))
        && (req.address.Some? && AnyAddressField(req.address.value) ==>
              var addressId := AddressIdOf(old(rows), id);
              && (addressId.None? ==> r == Err(InternalServerError) && addresses == old(addresses))
              && (addressId.Some? ==>
                    r == Ok(()) && addresses == UpdatedAddresses(old(addresses), addressId.value, req.address.value)))
      ensures r.Err? ==> r.error in {BadRequest, InternalServerError}
    {
      var check := UpdateCheck(req, cat);
      if check.Some? {
        return Err(check.value);
      }
      if AnyPractitionerField(req) {
        if !reachable {
          return Err(InternalServerError);
        }
        PatchKeepsIds(rows, id, req, nextId);
        rows := UpdatedRows(rows, id, req);
        PatchKeepsAddressId(old(rows), id, req);
      }
      if req.address.Some? {
        var dto := req.address.value;
        // the address id lookup answers null on any failure
        var addressId := if reachable then AddressIdOf(rows, id) else None;
        if AnyAddressField(dto) {
          if addressId.None? {
            return Err(InternalServerError);
          }
          PatchKeepsAddressIds(addresses, addressId.value, dto, nextAddressId);
          addresses := UpdatedAddresses(addresses, addressId.value, dto);
        }
      }
      return Ok(());
    }
  }
}
