# Ollie booking and calendar engine, in Dafny

This project models the rule engine of the Ollie health-booking back end, a
NestJS service. It covers three parts:

- **Appointments.** Booking computes the end time from the practitioner's slot
  length. The start must fit one of the practitioner's weekly windows for that
  day, and the booking must not meet an existing appointment. Cancelling is
  guarded by reason length, a two-hour lead time and the current status.
- **Weekly schedules.** Requests are expanded into one window per day. Replacing
  them runs a same-day overlap loop, then deletes the old windows and inserts the
  new ones. New practitioners get a default Monday to Friday week.
- **Practitioner calendar events.** Create and update check the interval,
  normalise all-day events and look for overlapping confirmed events.

Around the engine it models:

- the users service (sign-up, profile update, favourites);
- the practitioners service (creation, ownership lookups, partial update of the
  profile and its address);
- the qualifications service, the COVID-testing request service and the category
  labels;
- the three controllers that decide NotFound versus Forbidden.

Layout:

- One module per source component. Stores are classes whose `rows` field is a
  sequence that the methods reassign.
- Each store has a `reachable` constant. It stands for whether its database
  answers during the request, and every store-failure path is taken when it is
  false.
- Instants are integer seconds in UTC. The Africa/Johannesburg zone is a fixed
  offset of two hours.
- The current time is a `now` parameter.
- The country, medical-aid and language enumerations, and the email and photo-type
  patterns, are defined outside the modelled files. They are passed in as a
  `Catalogue` value.

## Model

| member | source | states |
|---|---|---|
| Text.TrimSpec | src/users/users.service.ts:64 | `String.prototype.trim`: the input is some whitespace, then the result, then some whitespace, and the result neither starts nor ends with whitespace |
| Text.TrimEmptyIffBlank | src/users/users.service.ts:64 | a string trims to empty exactly when every character is whitespace |
| Text.TrimIdempotent | src/users/users.service.ts:178-187 | trimming twice gives the same string as trimming once |
| Clock.UtcWeekday | src/appointments/appointments.service.ts:50 | `getUTCDay()` lies in 0..6 |
| Clock.UtcDayStart | src/appointments/appointments.service.ts:65-71 | the UTC midnight at or before the instant, less than a day before it |
| Clock.UtcClock | src/appointments/appointments.service.ts:69-70 | the UTC hour and minute are a valid clock time; day start, minute of day and seconds add back up to the instant |
| Clock.SetClock | src/practitioner_events/practitioner_events.service.ts:65-75 | setting hour and minute keeps the UTC date and the seconds, and yields exactly the requested clock time |
| Clock.JohannesburgDayStart | src/extras/services/extras.service.ts:65-67 | the start of the Johannesburg calendar day: at most the instant, less than a day before it, and a Johannesburg midnight |
| Categories.CategoryLabel | src/shared/utils/utilts.ts:2-23 | the label is never empty, and it is the generic "Practitioner category" exactly for an unlisted value |
| Categories.LabelsDistinct | src/shared/utils/utilts.ts:5-19 | two different listed categories get different labels |
| Categories.LabelExamples | src/shared/utils/utilts.ts:6-19 | the fixed labels, for example "General practitioner" and "Wellness hub" |
| Schedules.TimeText | src/practitioners/constants.ts:15 | a clock time is written as `HH:mm`: five characters, with a colon in the middle and digits around it |
| Schedules.ParseTimeText | src/practitioners/services/practitioner-schedules.service.ts:130-140 | reading back a written time gives the same time |
| Schedules.TimeTextOfParse | src/practitioners/services/practitioner-schedules.service.ts:130-140 | text that reads as a time is exactly that time's `HH:mm` text |
| Schedules.DayRowsSpec | src/practitioners/services/practitioner-schedules.service.ts:123-142 | one request yields one window per day, in order, with the request's times, exactly when every day is in 1..7 and the start is not after the end |
| Schedules.ExpandSpec | src/practitioners/services/practitioner-schedules.service.ts:115-147 | expansion succeeds exactly when every request is accepted; every resulting window is well formed and belongs to the practitioner |
| Schedules.DefaultRows | src/practitioners/constants.ts:4-14 | the default week expands to exactly five windows, Monday to Friday, 07:00 to 15:00 |
| Schedules.MapDays | src/practitioners/services/practitioner-schedules.service.ts:123-142 | the day loop for one request returns that request's windows, or fails where the specification says |
| Schedules.MapScheduleModels | src/practitioners/services/practitioner-schedules.service.ts:115-147 | the loop over requests returns exactly the expansion, or fails exactly when it does |
| Schedules.FindScheduleConflict | src/practitioners/services/practitioner-schedules.service.ts:56-81 | the nested loop throws exactly on the as-written conflict: a window before the last one against any window from its own position on, on the same day |
| Schedules.AsWrittenConflictIff | src/practitioners/services/practitioner-schedules.service.ts:56-81 | as written, the loop rejects the intended same-day overlaps and, in addition, every list with a non-empty window before the last position, because each window is compared with itself |
| Schedules.DefaultWeekRejected | src/practitioners/services/practitioner-schedules.service.ts:56-81 | sending the default week as a replacement is itself rejected |
| Schedules.OtherPractitioners | src/practitioners/services/practitioner-schedules.service.ts:84-86 | the delete keeps exactly the windows of other practitioners |
| Schedules.RowsForDay | src/practitioners/services/practitioner-schedules.service.ts:103-106 | the day lookup returns exactly the stored windows of that practitioner and day |
| Schedules.ReplacedLookup | src/practitioners/services/practitioner-schedules.service.ts:84-88 | after a replace, every day lookup for the practitioner returns only the new windows of that day |
| Schedules.ScheduleStore.InjectDefaultSchedule | src/practitioners/services/practitioner-schedules.service.ts:21-41 | the practitioner's windows become exactly the default week and other practitioners keep theirs; a store failure is InternalServerError and changes nothing |
| Schedules.ScheduleStore.ReplaceCurrentSchedules | src/practitioners/services/practitioner-schedules.service.ts:44-96 | succeeds exactly when the store answers, the expansion succeeds and the as-written loop finds no conflict; then the practitioner's windows are replaced by the new ones; every failure is InternalServerError and leaves the store as it was |
| Schedules.ScheduleStore.GetSchedulesForDayOfWeek | src/practitioners/services/practitioner-schedules.service.ts:98-113 | the windows of that practitioner and day; a store failure is InternalServerError, not an empty list |
| Appointments.StoredDayOfWeek | src/appointments/appointments.service.ts:50 | the stored day is in 1..7, and it is 1 exactly for a UTC Sunday |
| Appointments.PreviousDayOfWeek | src/appointments/appointments.service.ts:120-121 | the fallback's day is always a stored day 1..7 |
| Appointments.PreviousDayIsDayBefore | src/appointments/appointments.service.ts:114-121 | the fallback's day is the stored day of the instant 24 hours earlier |
| Appointments.MinuteDifference | src/appointments/appointments.service.ts:316-335 | the three-branch difference equals (end - start) mod 1440 and lies in [0, 1440) |
| Appointments.MinuteDifferenceOfEqualTimes | src/appointments/appointments.service.ts:316-335 | equal times are zero minutes apart |
| Appointments.MinuteDifferenceWraps | src/appointments/appointments.service.ts:316-335 | an end earlier on the clock wraps past midnight |
| Appointments.WindowEnd | src/appointments/appointments.service.ts:72-81 | a window closes at its opening or later, less than a day after it |
| Appointments.FitsWindowIff | src/appointments/appointments.service.ts:59-99 | an appointment fits a window exactly when both ends lie within it on the appointment's UTC date, with inclusive bounds |
| Appointments.BlocksBookingIff | src/appointments/appointments.service.ts:156-205 | the overlap query finds an appointment of the same practitioner that is not Pending (the shared status parameter), starts no earlier than the new one, and shares an instant with it |
| Appointments.TouchingNeverBlocks | src/appointments/appointments.service.ts:156-170 | appointments that only touch never conflict |
| Appointments.NeverDeletesMeeting | src/appointments/appointments.service.ts:276-305 | the links are cleared before the meeting-deletion test reads them, so the meeting is never deleted |
| Appointments.CancelCheck | src/appointments/appointments.service.ts:245-274 | the guards in order: a trimmed reason that is not 50 characters is BadRequest; a start less than two hours away, or a status other than Confirmed or Pending, is UnprocessableEntity; all pass exactly when none applies |
| Appointments.CancelLeadTime | src/appointments/appointments.service.ts:255-262 | a Confirmed appointment with a valid reason can be cancelled exactly when it starts at least two hours from now |
| Appointments.FindById | src/appointments/appointments.service.ts:308-314 | the position found holds the id, and no position holds it when none is found |
| Appointments.AppointmentsService.CreateAppointment | src/appointments/appointments.service.ts:36-237 | a past start is BadRequest. A start fitting no window of its day is BadRequest when the previous day has no windows and UnprocessableEntity otherwise. A conflict is UnprocessableEntity. Otherwise a Confirmed row with end = start + slot is appended. A virtual booking whose meeting fails leaves the row saved and answers InternalServerError |
| Appointments.AppointmentsService.GetAppointmentById | src/appointments/appointments.service.ts:308-314 | the row, or none when it is missing or the store fails |
| Appointments.AppointmentsService.CancelAppointment | src/appointments/appointments.service.ts:239-306 | on a failed guard nothing changes. Otherwise the row becomes Cancelled with the reason, the actor, the practitioner flag and both links cleared, and nothing else changes; a failing save is swallowed |
| AppointmentsController.CancelAccess | src/appointments/appointments.controller.ts:61-78 | a missing appointment is NotFound. Access is granted exactly to the practitioner's owner or the booking user, and anyone else gets NotFound. The flag says whether the caller acts as the practitioner |
| AppointmentsController.PatientCancelsAsPatient | src/appointments/appointments.controller.ts:69-78 | a booking user who owns no practitioner cancels as the patient |
| AppointmentsController.AppointmentsController.CreateAppointment | src/appointments/appointments.controller.ts:29-46 | an unknown caller or practitioner is NotFound with nothing booked; a booking made uses the practitioner's slot length, the caller's id and the Confirmed status |
| AppointmentsController.AppointmentsController.CancelAppointment | src/appointments/appointments.controller.ts:50-85 | a missing appointment is NotFound before any access check, then outsiders get NotFound; the service gets the caller as actor and the practitioner flag |
| Events.AllDayEnd | src/practitioner_events/practitioner_events.service.ts:65-75 | the normalised end, plus one second, has the end's date and seconds and the start's hour and minute |
| Events.AllDayEndSameDay | src/practitioner_events/practitioner_events.service.ts:65-75 | on one UTC day the normalised end is before the start exactly when the end's seconds do not exceed the start's |
| Events.AllDayEndOfWholeDay | src/practitioner_events/practitioner_events.service.ts:65-75 | a midnight-to-midnight event ends one second before the second midnight |
| Events.AllDayEndBeforeStart | src/practitioner_events/practitioner_events.service.ts:65-75 | a concrete accepted interval is normalised to end before it starts; the result is not re-checked, so it is stored as such when unconfirmed, and a confirmed one makes the overlap query fail with InternalServerError |
| Events.EmptyIntervalMeetsNothing | src/practitioner_events/practitioner_events.service.ts:124-153 | an interval whose end equals its start meets no event, so the overlap check lets it through |
| Events.MeetsItself | src/practitioner_events/practitioner_events.service.ts:124-153 | a confirmed, unfinished event of positive length meets its own row |
| Events.Merged | src/practitioner_events/practitioner_events.service.ts:189-204 | a non-blank title replaces the stored one untrimmed; a truthy description, colour or location replaces the stored one; both flags fall back to the stored values; identity and times are kept |
| Events.EmptyUpdateKeeps | src/practitioner_events/practitioner_events.service.ts:189-204 | an update that sends nothing leaves the event as stored |
| Events.FindById | src/practitioner_events/practitioner_events.service.ts:256-264 | the position found holds the id, and no position holds it when none is found |
| Events.EventStore.IsIntervalOverlappingAnyEvent | src/practitioner_events/practitioner_events.service.ts:124-153 | true exactly when a confirmed event of the practitioner, not yet over, shares an instant with the interval; an inverted interval (end before start), which the range constructor refuses, and a store failure are InternalServerError |
| Events.EventStore.CreatePractitionerEvent | src/practitioner_events/practitioner_events.service.ts:24-97 | a past start or an end not after the start is BadRequest; the all-day end is normalised; a confirmed event whose normalised end falls before its start is InternalServerError; a confirmed event meeting another is UnprocessableEntity; otherwise exactly the new event is appended |
| Events.EventStore.GetPractitionerEvent | src/practitioner_events/practitioner_events.service.ts:110-116 | the event, or NotFound |
| Events.EventStore.GetPractitionerIdForEventId | src/practitioner_events/practitioner_events.service.ts:240-254 | the owning practitioner, or no value both for a missing event and for a store failure |
| Events.EventStore.DeletePractitionerEvent | src/practitioner_events/practitioner_events.service.ts:99-108 | a missing event is NotFound; otherwise exactly that row is removed |
| Events.EventStore.UpdatePractitionerEvent | src/practitioner_events/practitioner_events.service.ts:155-238 | supplied times replace the stored ones and an end not after the start is BadRequest (there is no past check). Fields are merged and the end is normalised only for an all-day request. A confirmed result whose normalised end falls before its start is InternalServerError. A confirmed result meeting any confirmed event, its own row included, is UnprocessableEntity. Otherwise exactly that row is replaced |
| Events.RenameCollidesWithItself | src/practitioner_events/practitioner_events.service.ts:206-229 | renaming a confirmed, unfinished event keeps its interval, which meets its own row, so the rename is refused |
| EventsController.DtoOf | src/practitioner_events/practitioner_events.controller.ts:61-73 | the response copies every field of the saved event except its creator |
| EventsController.DtoOfInjective | src/practitioner_events/practitioner_events.controller.ts:61-73 | two events with the same response differ at most in their creator |
| EventsController.CreateAccess | src/practitioner_events/practitioner_events.controller.ts:48-54 | creating is allowed exactly for one of the caller's practitioners, and refused with NotFound otherwise |
| EventsController.ChangeAccess | src/practitioner_events/practitioner_events.controller.ts:90-104 | an owner that cannot be resolved is NotFound; an owner the caller does not act for is Forbidden; otherwise allowed |
| EventsController.UnreachableReadsAsMissing | src/practitioner_events/practitioner_events.controller.ts:86-94 | when the owner lookup yields nothing, including on a store failure, the answer is NotFound |
| EventsController.EventsController.CreatePractitionerEvent | src/practitioner_events/practitioner_events.controller.ts:37-74 | an unknown caller or a practitioner the caller does not own is NotFound with nothing stored; a success keeps the earlier rows and appends exactly the requested event (normalised all-day end, next id, the caller as creator) and returns its response |
| EventsController.EventsController.Authorise | src/practitioner_events/practitioner_events.controller.ts:84-104 | the unresolved-owner NotFound comes before the practitioner lookup; then the access decision over the caller's practitioners |
| EventsController.EventsController.UpdatePractitionerEvent | src/practitioner_events/practitioner_events.controller.ts:79-110 | an event of another owner is Forbidden; a success means the caller owns the event and its row is replaced by the merged event with the updated interval; a failure changes nothing |
| EventsController.EventsController.DeletePractitionerEvent | src/practitioner_events/practitioner_events.controller.ts:115-139 | deletes exactly when the caller owns the event, and then only that row; an event of another owner is Forbidden |
| Users.CreateCheck | src/users/users.service.ts:64-89 | sign-up passes exactly when both names are non-blank, the email matches and the country code is listed; otherwise BadRequest |
| Users.UpdateCheck | src/users/users.service.ts:141-171 | an update passes exactly when the given names are non-blank, a non-blank country code is listed, and a listed medical aid is present; otherwise BadRequest |
| Users.UpdateWithoutMedicalAidRefused | src/users/users.service.ts:166-171 | an update without a medical aid is always refused |
| Users.ApplyUpdate | src/users/users.service.ts:173-192 | field by field: a given name, country code, phone, city, address, zip code, medical-aid number or plan is written trimmed, a given medical aid is written as sent, and a field left out keeps its stored value; identity, email, avatar and favourites never change |
| Users.ApplyUpdateIdempotent | src/users/users.service.ts:173-192 | applying the same update twice changes nothing more |
| Users.RemoveAll | src/users/users.service.ts:359-361 | exactly the entries equal to the id are removed, so the length drops by their count |
| Users.RemoveAllIdempotent | src/users/users.service.ts:359-361 | removing twice is removing once |
| Users.RemoveAfterAdd | src/users/users.service.ts:340-361 | adding an absent id and then removing it restores the list |
| Users.FindByUid | src/users/users.service.ts:210-214 | the position found holds the uid, and no position holds it when none is found |
| Users.UsersService.Create | src/users/users.service.ts:35-133 | an existing uid returns the stored user unchanged before any validation; otherwise the checks, then exactly one new user is appended |
| Users.UsersService.GetUserForUid | src/users/users.service.ts:210-219 | the user with the uid, or NotFound |
| Users.UsersService.GetUserIdForUid | src/users/users.service.ts:322-325 | the id of the user with the uid, or NotFound |
| Users.UsersService.Update | src/users/users.service.ts:135-208 | an unknown uid is NotFound; a failed check is BadRequest with nothing written; otherwise only that user is patched, and the display name is sent exactly when a first or last name is written |
| Users.UsersService.AddPractitionerToFavorites | src/users/users.service.ts:327-348 | appends the id, duplicates allowed, exactly when the user exists with fewer than 25 favourites. The limit refusal surfaces as InternalServerError like every other failure. The 25 bound is preserved |
| Users.UsersService.RemovePractitionerFromFavorites | src/users/users.service.ts:350-371 | every entry equal to the id is removed from that user's list only; failures are InternalServerError; the bound is preserved |
| Practitioners.CreateTitle | src/practitioners/services/practitioners.service.ts:42 | the title is "Dr. ", the first name, a space and the last name |
| Practitioners.CreateCheck | src/practitioners/services/practitioners.service.ts:44-59 | creation passes exactly when both names are non-blank and the email matches; otherwise BadRequest |
| Practitioners.IdsFor | src/practitioners/services/practitioners.service.ts:121-147 | an id is listed exactly when a stored practitioner has it and was created by the user, or the caller is a power user |
| Practitioners.PowerUserSeesAll | src/practitioners/services/practitioners.service.ts:133-136 | a power user gets every id, in row order |
| Practitioners.NoUserOwnsNothing | src/practitioners/services/practitioners.service.ts:133-136 | a null user id owns nothing |
| Practitioners.FindById | src/practitioners/services/practitioners.service.ts:168-185 | the position found holds the id, and no position holds it when none is found |
| Practitioners.UpdateCheck | src/practitioners/services/practitioners.service.ts:204-256 | an update passes exactly when: a truthy title is not blank; a truthy email is valid after trimming; prices are not negative; all medical aids and languages are listed; a point lies on Earth. Otherwise BadRequest |
| Practitioners.TitleChecks | src/practitioners/services/practitioners.service.ts:204-208 | an empty title skips the check, while a whitespace-only one is refused |
| Practitioners.PatchPractitioner | src/practitioners/services/practitioners.service.ts:272-292 | field by field: a given title, email, phone or bio is written trimmed, given prices, medical aids, languages and active flag are written as sent, and a field left out keeps its stored value; id, creator, address, category, slot length and gender never change |
| Practitioners.PatchPractitionerWithoutFieldsKeeps | src/practitioners/services/practitioners.service.ts:272-292 | a request with no practitioner field leaves the row as stored |
| Practitioners.PatchPractitionerIdempotent | src/practitioners/services/practitioners.service.ts:272-292 | applying the same update twice changes nothing more |
| Practitioners.PatchAddress | src/practitioners/services/practitioners.service.ts:294-326 | a location left out is kept, null clears it, a point replaces it; each of line 1, line 2, suburb, city, postal code and state is written trimmed when given and kept when left out; the id and country never change; an empty address part changes nothing |
| Practitioners.FindAddress | src/practitioners/services/practitioners.service.ts:294-326 | the position found holds the address id, and no position holds it when none is found |
| Practitioners.PatchKeepsAddressId | src/practitioners/services/practitioners.service.ts:294-297 | patching the profile does not move its address |
| Practitioners.PractitionersService.CreatePractitioner | src/practitioners/services/practitioners.service.ts:36-119 | failed checks are BadRequest with nothing written. The blank South African address is saved first. A missing user id then fails with InternalServerError. Otherwise the practitioner is appended with its title, a 30-minute slot and English as its language |
| Practitioners.PractitionersService.GetPractitionersIdsForUserId | src/practitioners/services/practitioners.service.ts:121-147 | the ids the user may act for, or InternalServerError |
| Practitioners.PractitionersService.GetPractitionerByUserId | src/practitioners/services/practitioners.service.ts:149-166 | the practitioner exactly when it exists and the user created it; no value otherwise |
| Practitioners.PractitionersService.GetPractitionerById | src/practitioners/services/practitioners.service.ts:168-185 | the practitioner, or NotFound |
| Practitioners.PractitionersService.UpdatePractitioner | src/practitioners/services/practitioners.service.ts:187-334 | failed checks are BadRequest with nothing written. Otherwise the profile is patched. Address fields are applied to the practitioner's address, and fail with InternalServerError when that address cannot be found |
| PractitionersController.UploadCheck | src/practitioners/practitioners.controller.ts:224-241 | an upload passes exactly for an owned practitioner with a file of an accepted type; a non-owner is NotFound, otherwise BadRequest |
| PractitionersController.FirstOwnedIsFound | src/practitioners/practitioners.controller.ts:71-76 | the first owned id is found again with the caller as creator |
| PractitionersController.PractitionersController.ResolveUser | src/practitioners/practitioners.controller.ts:44-62 | a known uid gives its user id. An unknown uid creates a user in South Africa. Any other lookup failure is swallowed and leaves no user id |
| PractitionersController.PractitionersController.Create | src/practitioners/practitioners.controller.ts:38-118 | a caller who owns practitioners gets the first one back and nothing changes. A new practitioner is appended and its windows become exactly the default week. A new user is created only for an unknown uid |
| PractitionersController.PractitionersController.Get | src/practitioners/practitioners.controller.ts:120-157 | returns the practitioner exactly when the caller created it; NotFound otherwise |
| PractitionersController.PractitionersController.GetPractitionerIds | src/practitioners/practitioners.controller.ts:159-171 | the ids of the practitioners the caller created |
| PractitionersController.PractitionersController.Update | src/practitioners/practitioners.controller.ts:173-205 | a practitioner the caller does not own is NotFound with nothing changed. The profile is updated first. The schedules are replaced only after it succeeds and only for a non-empty list; the schedules change only in a call that succeeds |
| PractitionersController.PractitionersController.UploadFile | src/practitioners/practitioners.controller.ts:206-246 | succeeds exactly when the upload check passes for the caller's practitioners; a non-owner is NotFound |
| Qualifications.MapEntry | src/practitioners/services/practitioner-qualifications.service.ts:49-64 | an entry fails exactly when it is not current and has no end date. A row carries the practitioner, title, start and flag; a current entry never keeps an end date |
| Qualifications.MapAllSpec | src/practitioners/services/practitioner-qualifications.service.ts:49-64 | the list maps exactly when every entry does, to one row per entry in order |
| Qualifications.Without | src/practitioners/services/practitioner-qualifications.service.ts:35 | the delete keeps exactly the rows of other practitioners |
| Qualifications.ForPractitioner | src/practitioners/services/practitioner-qualifications.service.ts:87-93 | the fetch returns exactly the practitioner's rows |
| Qualifications.ReplacedLookup | src/practitioners/services/practitioner-qualifications.service.ts:33-70 | after delete and insert, fetching yields exactly the inserted rows in order |
| Qualifications.QualificationStore.UpdateQualificationsByPractitionerId | src/practitioners/services/practitioner-qualifications.service.ts:21-81 | a blank id or a missing list changes nothing. Otherwise the old rows are deleted first. An unmappable entry is InternalServerError and leaves none. Otherwise the mapped rows are appended |
| Qualifications.QualificationStore.GetQualificationsForPractitionerId | src/practitioners/services/practitioner-qualifications.service.ts:83-104 | the practitioner's rows, or InternalServerError |
| Qualifications.FailedReplaceLeavesNone | src/practitioners/services/practitioner-qualifications.service.ts:34-80 | after a failed mapping the practitioner has no qualifications |
| Qualifications.ReplaceReadsBack | src/practitioners/services/practitioner-qualifications.service.ts:21-81 | after a successful replace, fetching yields one row per entry, in order |
| Extras.DateCheck | src/extras/services/extras.service.ts:65-78 | a date is refused with BadRequest exactly when its Johannesburg day is before today's there |
| Extras.SameDayAccepted | src/extras/services/extras.service.ts:65-78 | any time on today's Johannesburg date is accepted |
| Extras.DayBoundaryIsJohannesburgMidnight | src/extras/services/extras.service.ts:65-78 | the day changes at Johannesburg midnight, 22:00 UTC |
| Extras.CountCheck | src/extras/services/extras.service.ts:80-91 | the head count must equal the sum of the three counts, else BadRequest |
| Extras.Row | src/extras/services/extras.service.ts:94-107 | the stored row maps each count to its column and stores the Johannesburg start of the preferred day |
| Extras.RowCountsAddUp | src/extras/services/extras.service.ts:80-107 | a stored row's head count is the sum of its stored counts |
| Extras.ExtrasService.LoadCredentialsForServiceAccount | src/extras/services/extras.service.ts:29-48 | parsed credentials are kept; the load succeeds exactly when both keys are present, and otherwise fails with InternalServerError |
| Extras.ExtrasService.RequestCovidTestingWithNextPath | src/extras/services/extras.service.ts:50-123 | the checks come first. The row is saved before the credentials are loaded. Cached credentials are not reloaded. A failed load answers InternalServerError with the row already stored |

## Left out

- Spreadsheet writing, welcome and booking emails, video-meeting creation, Firebase
  custom claims, display-name updates and avatar storage are I/O. A meeting is a
  parameter of booking. The display name is returned instead of being sent.
  `updateAvatar` and `deleteAvatar` are not modelled; avatar upload stops after
  its checks.
- Response objects are modelled only for the event created through the controller.
  The practitioner and appointment DTOs (their schedules, location and id-list
  shapes) are not modelled.
- Parsing of ISO dates and times by luxon and date-fns is not modelled. Requests
  carry instants and clock times, at whole-second precision.
- The schedule time columns are `time with time zone` and come back from the
  driver as text. The model reads them as the clock times the booking code
  intends to compare.
- The local-time `Date` constructor and luxon's default zone are taken to be UTC.
  Johannesburg is a fixed UTC+02:00.
- A store either answers for the whole request or fails at every step. The model
  does not cover a store that fails in the middle of a request, or concurrency,
  such as the race between the overlap query and the save.
- Un-awaited promises (the favourites updates, the display-name update) are
  modelled as completed writes.
- Null and undefined request fields are both `None`. The difference matters only
  for `address.location`, which has its own three-way type.
- The email and photo-type regular expressions and the country, medical-aid and
  language enumerations are not among the modelled files. They are parameters,
  and enum membership is modelled as set membership.
- TypeORM relation handling is not modelled: many-to-many updates of medical aids
  and languages, and foreign keys. Updating a missing practitioner id is a no-op.
  An update of address `null` is modelled as the failure it raises. A null
  creator is refused by the non-nullable column.
- Postgres check constraints on practitioners and reviews are not modelled.
- Extras.CountCheck: the head count and the three test counts are whole numbers
  (`int`). The validator accepts any JavaScript number, fractions included, and
  the source compares a floating-point sum with `!==`; fractional counts and
  rounding in that sum are not modelled.
- The reviews, medical-aid and authentication modules, and the thin users,
  extras and app controllers, are not part of this model.
- Schedules.FindScheduleConflict: compares each window with those from its own
  position to the end of the list. If the undeclared `length` in
  `slice(index, length)` raises a ReferenceError at run time instead, any list of
  two or more windows fails. Either way the error surfaces as
  InternalServerError, and the two readings differ only for lists whose earlier
  windows are all empty.
- Appointments.AppointmentsService.CancelAppointment: it models the
  meeting-deletion decision, not the deletion call, which never happens.
- Events.Overlapping: a stored row whose end precedes its start (an unconfirmed
  all-day event normalised backwards, later confirmed through an update of the
  flag alone) is treated as meeting nothing. Whether Postgres instead raises when
  it builds that row's range depends on the order in which it evaluates the
  query's conditions, which is not modelled.
