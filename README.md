# Hotel reservation backend, modelled in Dafny

This project models the business logic of a hotel reservation backend (an
Express and Mongoose application). It covers the booking lifecycle of
`controllers/bookingController.js` and `models/Booking.js`, the room schema of
`models/Room.js`, the catalogue handlers of `controllers/roomController.js` and
`controllers/categoryController.js`, and the account handlers of
`controllers/authController.js`.

The database is an in-memory `Store.Database`:
- `users`, `rooms`, `categories` and `bookings` are maps from ids to documents;
- one counter hands out the ids, so a larger id means a later `createdAt`, and "sorted by `-createdAt`" means "ids descending";
- its invariant `Valid()` says that stored rooms satisfy the room schema, that stored bookings passed their validators, and that emails identify users.

Every handler is a method. It returns an `Outcome`: the HTTP status with the
payload, or the status with the error message. It changes the maps the way
the handler does.

Each handler's contract states:
- every error case, in the order the code meets them;
- what a success writes;
- that nothing else changes.

The model follows what Mongoose does with the code as written. In
particular:
- `save()` validates the whole document and then runs the pre-save hook.
  - So cancelling a booking whose start has passed, or updating it without moving its start into the future, fails with 400.
- Assigning a value that does not cast records a cast error, and the path keeps its value. Assigning `""` to a date or number path clears it, so its `required` validator fails. The next `save()` reports these errors, one per path: a path that has one is not reported again by its other validators.
  - So in `updateBooking` the availability check and the repricing, with its room lookup, come before a bad `guests` value is reported.
- `findByIdAndUpdate` with `runValidators` validates the given paths before it looks the document up.
  - So an invalid room update answers 400 even for a missing id.
- A handler that dereferences a document that is gone throws a `TypeError`. The handler's catch block turns it into a 400 with the runtime's message:
  - the booking's user in `getBooking`;
  - the room in `updateBooking` and `cancelBooking`;
  - the category in `getRoomById`.
- `cancelBooking` saves the booking before it looks up the room. So a missing room fails the request yet leaves the booking cancelled.
- Nothing guards a repeat cancellation. It passes the same checks and succeeds again, writing `disponible` into the room. That changes nothing when the room is already free, and frees a room that another booking has since marked `occupée`.
- `room.isAvailable(start, end)` is defined in no file of this model. The model takes `available: (Id, int, int) -> bool` as a parameter. No overlap rule is assumed.

Other modelling choices:
- The current time is the parameter `now`.
- Dates are integer milliseconds.
- Prices are integers.
- The occupancy rate is an exact `real`.

Request bodies come in three forms:
- typed records, for creating bookings and rooms and for registering;
- a map from keys to `Json` values, for `updateBooking`;
- a map from keys to strings, for profile updates.

A `Json` value is one of:
- a date string (its text and its instant);
- a number;
- some other text.

## Model

| member | source | states |
|---|---|---|
| Common.NewestFirst | controllers/bookingController.js:94-95 | the listing holds only stored entries with ids below the counter, each with its stored document, in strictly decreasing id (newest first) order |
| Common.NewestFirstHas | controllers/bookingController.js:94-95 | every stored entry with an id below the counter appears in the listing |
| Common.NewestFirstListsAll | controllers/bookingController.js:94-95 | when every id is below the counter, the listing holds every stored entry |
| Common.Select | controllers/bookingController.js:73 | the selection holds exactly the elements of the list that satisfy the filter, and is no longer than the list |
| Common.Truthy | controllers/bookingController.js:179-180 | `""` and `0` are falsy, a date is truthy |
| Common.NewestFirstSize | controllers/bookingController.js:94-95 | the listing has one entry per stored id below the counter |
| Common.NewestFirstCount | controllers/bookingController.js:94-95 | when every id is below the counter, the listing is as long as the collection |
| Common.PickedIdsDistinct | controllers/roomController.js:77-90 | entries picked from a listing, no more often than they occur in it, have distinct ids |
| Common.SelectKeepsNewestFirst | controllers/bookingController.js:73-74 | filtering a newest-first list keeps it newest first |
| Text.TrimStart | models/Room.js:7 | the result is a suffix of the input, everything removed is blank, and it does not start with a blank |
| Text.TrimEnd | models/Room.js:7 | the result is a prefix of the input, everything removed is blank, and it does not end with a blank |
| Text.Trim | models/Room.js:7 | the trimmed string is no longer than the input, has no blank at either end, and is empty exactly when the input is all blanks |
| Text.TrimBothEnds | models/Booking.js:53-56 | trimming the start and then the end leaves no blank at either end, and leaves nothing exactly when every character is blank |
| Text.TrimOfTrimmed | models/Room.js:7 | a string with no blank at either end is its own trim |
| Text.TrimIdempotent | models/Room.js:7 | trimming twice is the same as trimming once |
| Text.NatToDecimal | controllers/roomController.js:19 | the decimal rendering of a number is a non-empty string of digits with no leading zero |
| Text.IntToDecimal | controllers/roomController.js:19 | the rendering of an integer in a template literal is never empty |
| Text.DecimalRoundTrip | controllers/roomController.js:19 | reading back the decimal digits of `n` gives `n` |
| RoomSchema.ParseAmenity | models/Room.js:35-48 | a string is accepted exactly when it is one of the nine amenity values, and it reads as the amenity of that name |
| RoomSchema.AmenityRoundTrip | models/Room.js:35-48 | every amenity reads back from its name |
| RoomSchema.ParseRoomStatus | models/Room.js:49-53 | a status is accepted exactly when it is `disponible`, `occupée` or `maintenance`, and it reads as the status of that name |
| RoomSchema.RoomStatusRoundTrip | models/Room.js:49-53 | every room status reads back from its name |
| RoomSchema.InvalidPaths | models/Room.js:4-53 | a new room is rejected exactly when one of these fails: the name is non-empty after trimming; the description is non-empty; price >= 0; capacity >= 1; every image has a url; every amenity and the status are enum values |
| RoomSchema.ParseAmenities | models/Room.js:35-48 | reading a list of valid names gives one amenity per name, of that name |
| RoomSchema.AmenityNamesOf | controllers/roomController.js:56 | listing amenities gives one name per amenity, in order |
| RoomSchema.NamesOfParsed | models/Room.js:35-48 | names read as amenities and written back are the same names |
| RoomSchema.ParsedNamesOf | models/Room.js:35-48 | amenities written as names are valid and read back as the same amenities |
| RoomSchema.WrittenAmenities | models/Room.js:35-48 | a given amenity list replaces the stored one (with the same names); no list keeps the stored one |
| RoomSchema.WrittenStatus | models/Room.js:49-53 | a given status replaces the stored one (with the same name); no status keeps the current one |
| RoomSchema.Build | models/Room.js:4-53 | an accepted body becomes a room satisfying the schema, with the trimmed name, the given description, price, category, capacity, images and amenities, and the given status, or `disponible` when none is given |
| RoomSchema.InputRoundTrip | models/Room.js:4-53 | a valid room written back as a body is accepted, and builds the same room |
| RoomSchema.PatchInvalidPaths | controllers/roomController.js:123-127 | an update is rejected exactly when one of the paths it sets fails its validator; paths it does not set are not checked |
| RoomSchema.ApplyPatch | controllers/roomController.js:123-127 | each path the update sets takes the new value (the name trimmed, the enums read); every other path keeps its old value |
| RoomSchema.ApplyPatchKeepsValid | controllers/roomController.js:123-127 | an accepted update of a valid room gives a valid room |
| BookingSchema.ParseStatus | models/Booking.js:43-47 | a booking status is accepted exactly when it is one of the four enum values, and reads as the status of that name |
| BookingSchema.StatusRoundTrip | models/Booking.js:43-47 | every booking status reads back from its name |
| BookingSchema.ParsePaymentStatus | models/Booking.js:48-52 | a payment status is accepted exactly when it is one of the three enum values, and reads as the status of that name |
| BookingSchema.PaymentStatusRoundTrip | models/Booking.js:48-52 | every payment status reads back from its name |
| BookingSchema.Violations | models/Booking.js:14-38 | there are no violations exactly when startDate >= now, endDate > startDate and guests >= 1; each rule's violation is reported exactly when that rule fails |
| BookingSchema.ValidationMessageDistinct | models/Booking.js:70-87 | a validation error's message is never the message of either pre-save hook error |
| BookingSchema.CeilDiv | models/Booking.js:91 | `Math.ceil(x / d)` is the integer `q` with `(q - 1) * d < x <= q * d` |
| BookingSchema.CeilDivUnique | models/Booking.js:91 | those bounds determine the quotient |
| BookingSchema.Duration | models/Booking.js:90-92 | the stay in days is the one whole number `d` with `(d - 1)` days shorter than the stay and `d` days at least as long |
| BookingSchema.DurationOfWholeDays | models/Booking.js:90-92 | a stay of exactly `k` days of 86 400 000 ms lasts `k` days |
| BookingSchema.DurationRoundsUp | models/Booking.js:90-92 | a stay of `k` days and part of another lasts `k + 1` days |
| BookingSchema.DurationAtLeastOneDay | models/Booking.js:90-92 | a stay that ends after it starts lasts at least one day |
| BookingSchema.CalculateTotalPrice | models/Booking.js:95-106 | fails with `Chambre non trouvée` exactly when the room is missing; otherwise the only change is totalPrice, set to room price × duration |
| BookingSchema.TwoAndAHalfDaysChargeThree | models/Booking.js:95-106 | at 100 a night, a stay of two and a half days costs 300 |
| BookingSchema.PreSaveHook | models/Booking.js:70-87 | a booking that is neither new nor re-dated passes; otherwise a missing room is an error, and so is unavailability unless the status is `annulée`; no other error arises |
| BookingSchema.WithoutPaths | models/Booking.js:70-87 | keeps exactly the errors on other paths, and all of them when none is on the given paths |
| BookingSchema.AsValidated | controllers/bookingController.js:191 | a start date cleared by `""` reads as null (0) to the validators; nothing else changes |
| BookingSchema.SaveErrors | models/Booking.js:16-41 | with nothing recorded, the validators' errors then the enum errors; otherwise the recorded errors come last and every other error is a validator error on a path with no recorded error; empty exactly when there is no error of either kind |
| BookingSchema.SaveError | models/Booking.js:70-87 | a save succeeds exactly when no validator fails, no recorded error is pending and the hook passes; any validator or recorded error gives the validation message of `SaveErrors`, before the hook runs; with none, the error is the hook's own (`Chambre non trouvée` or `La chambre n'est pas disponible pour ces dates`); a saved booking keeps the stored invariant and starts no earlier than now |
| BookingSchema.EnumViolations | models/Booking.js:43-52 | a body is rejected for its enums exactly when a given status or payment status is outside its enum |
| BookingSchema.Construct | controllers/bookingController.js:29-32 | the document's user is the requester; the room, dates and guests come from the body; a given check-in or check-out time, total price or valid status or payment status is stored, an absent one takes its default (`14:00`, `12:00`, 0, `en attente`, `en attente`); given special requests are trimmed and absent ones stay unset |
| BookingSchema.BodyUserIgnored | controllers/bookingController.js:29-32 | a `user` in the body never reaches the document |
| BookingController.CreateBooking | controllers/bookingController.js:5-52 | 404 on a missing room; 400 when unavailable; then 400 with the validation message listing the validators' and enums' errors when any fails; a failure creates no booking and changes no room; success stores exactly one new booking (the requester's, priced at room price × duration) and marks its room `occupée` |
| BookingController.CommitCreate | controllers/bookingController.js:27-44 | with the room present and free: 400 with the validation message of the validators' and enums' errors when any fails, changing nothing; otherwise exactly one new booking under a fresh id, priced from the room, and the room marked `occupée` |
| BookingController.Matches | controllers/bookingController.js:64-71 | the empty filter matches every booking; a status filter matches only bookings of that status |
| BookingController.QuerySelects | controllers/bookingController.js:64-73 | the empty query selects every booking; a query whose end bound precedes its start bound selects none |
| BookingController.BuildFilter | controllers/bookingController.js:64-71 | a booking matches the filter exactly when its status equals the status asked for (if one is given) and its start date lies within the given bounds, both inclusive |
| BookingController.GetAllBookings | controllers/bookingController.js:55-89 | the listing holds exactly the stored bookings that the query selects, newest first |
| BookingController.GetUserBookings | controllers/bookingController.js:92-109 | the listing holds exactly the requester's stored bookings, newest first |
| BookingController.GetBooking | controllers/bookingController.js:112-143 | 404 on a missing booking; 400 when its user is gone; 403 unless the requester owns it or is an admin; otherwise 200 with the booking |
| BookingController.MayAccess | controllers/bookingController.js:126 | an admin may reach every booking, anyone else only their own |
| BookingController.ValidOperation | controllers/bookingController.js:148-150 | the body passes exactly when its keys are among the four allowed, so it never names the room, the owner, the price or a status |
| BookingController.AssignViolation | controllers/bookingController.js:191 | assigning a value records nothing exactly when a date path's value casts to a date and the guests value to a number; `""` records the path's `required` error, any other value that does not cast a cast error |
| BookingController.DateOf | controllers/bookingController.js:179-191 | a date or a number casts to a date path (as that instant), and so does a four-digit year, as the start of that year; any other text does not |
| BookingController.YearLength | controllers/bookingController.js:179-180 | a year's start reads as 1 January, 00:00 UTC: 1970 starts at the epoch and each year lasts 366 days when it is a leap year of the Gregorian calendar and 365 otherwise |
| BookingController.LeapStep | controllers/bookingController.js:179-180 | the leap-year count grows by one exactly at a Gregorian leap year (divisible by 4, and by 400 when divisible by 100) |
| BookingController.YearNumeralIsDate | controllers/bookingController.js:179-191 | `{"startDate": "2031"}` passes the date check, records no cast error and sets the start of 2031 |
| BookingController.NumberOf | controllers/bookingController.js:191 | a number casts to a number path as itself, a date never, a string exactly when it is a non-empty run of decimal digits |
| BookingController.TextOf | controllers/bookingController.js:191 | a string path takes a string as it is, a date as its text, and a natural number as decimal digits that read back as it |
| BookingController.AssignPath | controllers/bookingController.js:191 | assigning a value that records an error leaves the booking as it was |
| BookingController.AssignViolations | controllers/bookingController.js:191-193 | the errors recorded by the assignments are empty exactly when every assigned value casts |
| BookingController.DateCastViolations | controllers/bookingController.js:179-180 | there is no date cast error exactly when no date key holds a non-empty string that is not a date |
| BookingController.CheckDate | controllers/bookingController.js:179-180 | the date asked about is the body's date when the body's value is truthy, else the stored one |
| BookingController.Updated | controllers/bookingController.js:191 | each given key whose value casts takes the cast value (special requests trimmed); a value that does not cast, and every other field of the booking, leaves the field unchanged |
| BookingController.AssignPaths | controllers/bookingController.js:191 | assigning the body's keys one by one, in any order, gives the updated booking |
| BookingController.DatesChanged | models/Booking.js:71 | when neither date changed, the stay lasts as long as before |
| BookingController.PriceAndSave | controllers/bookingController.js:192-193 | a missing room fails with `Chambre non trouvée`, before any recorded error; with the room present, a recorded or validator error gives the validation message of `SaveErrors`; success means the repriced booking passes its validators and, if its dates changed and it is not cancelled, is available; a valid re-dated booking, not cancelled, whose room is unavailable fails with `La chambre n'est pas disponible pour ces dates`; when the dates did not change the room's availability is never consulted |
| BookingController.EmptyStartOneError | controllers/bookingController.js:191-193 | clearing the start date of a booking whose start has passed answers with the start date's `required` error alone |
| BookingController.EmptyEndOneError | controllers/bookingController.js:191-193 | moving the start past the stored end while clearing the end date answers with the end date's `required` error alone |
| BookingController.OnlyRecordedReported | models/Booking.js:16-41 | when one error was recorded at assignment and every validator error is on that same path, save reports that recorded error alone |
| BookingController.UpdateBooking | controllers/bookingController.js:146-205 | in order: 400 on any key outside the four allowed (before the lookup); 404 on a missing booking; 403 for a requester neither owner nor admin; 400 when a date key holds an unparsable string; then, only when a date key is present, 400 for a missing room and 400 when the room is unavailable for the new (or else stored) dates; past these checks, the outcome is exactly that of repricing and saving, so a missing room gives `Chambre non trouvée` and a bad `guests` value is reported by the save; success exactly when all checks pass and the save succeeds; success writes exactly the given keys and a recomputed totalPrice; failure changes nothing |
| BookingController.CommitUpdate | controllers/bookingController.js:191-198 | assigns, reprices and saves: the outcome is that of the save, a failure changes nothing and a success writes the repriced booking |
| BookingController.CancelBooking | controllers/bookingController.js:208-244 | 404 on a missing booking, 403 for a requester neither owner nor admin and 400 when its validators fail, each leaving the bookings as they were; otherwise the booking becomes `annulée` and its room `disponible`; a missing room fails after the booking is written; a repeat cancellation changes nothing only when the room is already free or gone |
| BookingController.CommitCancel | controllers/bookingController.js:226-232 | writes the cancelled booking; then 400 when the room is gone, else the room becomes `disponible` |
| CategorySchema.ApplyPatch | controllers/categoryController.js:67-71 | each path an update sets takes the new value; the others keep theirs |
| CategorySchema.Populate | controllers/categoryController.js:122-123 | the populated rooms are exactly the listed ids that still name a room, each with its stored room |
| CategorySchema.PopulateCounts | controllers/categoryController.js:122-123 | each stored id is populated exactly as often as it is listed, an unstored one never |
| CategorySchema.PopulateInOrder | controllers/categoryController.js:122-123 | the populated ids keep the list's order |
| CategorySchema.PopulateExact | controllers/categoryController.js:122-123 | the populated ids are the listed ids that name a stored room, each as often as listed, in list order; with every listed id stored, as many rooms as ids |
| CategorySchema.OccupancyRate | controllers/categoryController.js:138 | the rate is 0 when there are no rooms, lies between 0 and 100, and is 0 exactly when every room is available |
| CategorySchema.StatsOf | controllers/categoryController.js:131-138 | totalRooms is the number of populated rooms; availableRooms, the number of those with status `disponible`, is at most totalRooms; occupancyRate is their rate |
| CategoryController.RoomCount | controllers/categoryController.js:100 | the count is 0 exactly when no room names the category |
| CategoryController.NoMembersIffNoneNamesIt | controllers/categoryController.js:100-101 | the set of rooms naming a category is empty exactly when no room names it |
| CategoryController.GetCategory | controllers/categoryController.js:24-46 | 404 on a missing id, else the category with its populated rooms |
| CategoryController.CreateCategory | controllers/categoryController.js:49-62 | the category is stored under a fresh id and nothing else changes |
| CategoryController.UpdateCategory | controllers/categoryController.js:65-87 | 404 on a missing id, changing nothing; else only that category changes, to the patched one |
| CategoryController.DeleteCategory | controllers/categoryController.js:90-117 | 404 on a missing id; 400 while a room names the category; success exactly when it exists and no room names it, and afterwards it is absent and no other category changes |
| CategoryController.GetCategoryStats | controllers/categoryController.js:120-146 | 404 on a missing id, else the statistics of its populated rooms, with available <= total <= listed ids, and rate 0 when there are none |
| RoomViews.FirstImageUrl | controllers/roomController.js:16 | the url of the first image, or `''` when there is none |
| RoomViews.ThumbnailBlankIffNoImages | controllers/roomController.js:16 | for a stored room the thumbnail is blank exactly when the room has no image |
| RoomViews.ImageUrls | controllers/roomController.js:55 | one url per image, in order |
| RoomViews.SizeLabel | controllers/roomController.js:19 | the size label ends in `m²` after at least one character |
| RoomViews.SizeLabelReadsBack | controllers/roomController.js:19 | the digits in front of `m²` read as ten times the capacity |
| RoomViews.Summarize | controllers/roomController.js:11-21 | the catalogue entry carries the room's id, name, description and price, its first image, rating 4.5, 0 reviews, the size label and maxGuests = capacity |
| RoomViews.Summaries | controllers/roomController.js:11-21 | one catalogue entry per room, in the same order |
| RoomViews.Feature | controllers/roomController.js:84-90 | the featured entry carries the room's id, name, description and price and its first image |
| RoomViews.Features | controllers/roomController.js:84-90 | one featured entry per room, in the same order |
| RoomViews.Detail | controllers/roomController.js:48-62 | the detail page carries the room's fields as the handler lays them out: the description twice, image urls in order, amenity names, the size label, maxGuests = capacity, rating 4.5, 0 reviews, and the category's name |
| RoomViews.DetailImageIsFirstOfImages | controllers/roomController.js:54-55 | the detail page's image is the first of its images, and is blank exactly when there are none |
| RoomViews.InsertByPrice | controllers/roomController.js:82 | inserting adds exactly that entry and makes the list one longer |
| RoomViews.InsertKeepsDescending | controllers/roomController.js:82 | inserting into a list ordered by descending price keeps it ordered |
| RoomViews.SortByPrice | controllers/roomController.js:82 | the sorted list is a permutation of the input in descending price order |
| RoomViews.Featured | controllers/roomController.js:79-82 | the selection holds min(3, n) rooms, drawn from the input, in descending price order |
| RoomViews.FeaturedAreDearest | controllers/roomController.js:79-82 | no room left out of the selection costs more than one in it |
| RoomViews.FeaturedEntriesAreDearest | controllers/roomController.js:79-82 | every selected entry is from the input, and an input entry left out costs no more than any selected one |
| RoomController.CatalogueListsEveryRoom | controllers/roomController.js:5-21 | the catalogue has one entry for each stored room, each that room's summary, newest first |
| RoomController.GetAllRooms | controllers/roomController.js:5-33 | 200 with every stored room's summary and nothing else, newest first |
| RoomController.GetRoomById | controllers/roomController.js:36-74 | 404 on a missing room; 400 when its category is gone; otherwise 200 with its detail page and its category's name |
| RoomController.ShowcaseEntries | controllers/roomController.js:77-90 | the featured list has three rooms, or every room when there are fewer; they are distinct stored rooms, each shown as its featured entry, in descending price order |
| RoomController.LeftOutNoDearer | controllers/roomController.js:79-82 | a stored room that is not shown costs no more than any room shown |
| RoomController.ShowcaseIsDearest | controllers/roomController.js:79-82 | no stored room left out of the featured list is dearer than a room in it |
| RoomController.GetFeaturedRooms | controllers/roomController.js:77-102 | 200 with three distinct stored rooms (every room when there are fewer), dearest first, none left out dearer than one shown |
| RoomController.CreateRoom | controllers/roomController.js:105-118 | 400 listing the failing paths, changing nothing; success exactly when the body is valid, and then the built room is stored under a fresh id |
| RoomController.UpdateRoom | controllers/roomController.js:121-143 | 400 on an invalid update (checked before the lookup); 404 on a missing id; failure changes nothing; success replaces only that room, with the patched room |
| RoomController.DeleteRoom | controllers/roomController.js:146-164 | 404 on a missing id, changing nothing; otherwise exactly that room is removed |
| RoomController.CheckAvailability | controllers/roomController.js:199-226 | 404 on a missing room; otherwise the availability answer for the dates, with the room's id |
| AuthController.EmailTaken | controllers/authController.js:19 | an email is taken exactly when it is among the stored users' emails |
| AuthController.NewUser | controllers/authController.js:28-34 | the new user holds exactly the supplied email, password, first and last name and phone number, the default role, and no last login |
| AuthController.Register | controllers/authController.js:14-55 | 400 and no new user when the email is taken; otherwise exactly one new user, under a fresh id |
| AuthController.Login | controllers/authController.js:57-99 | every failure (an unknown email or a wrong password) is the same 401 and changes nothing; success exactly when a user with that email has a matching password, and it sets only that user's lastLogin to now |
| AuthController.GetProfile | controllers/authController.js:102-122 | 404 when the requester's user is missing, else 200 with that user |
| AuthController.ValidProfileOperation | controllers/authController.js:127-129 | the body passes exactly when its keys are among the four allowed, so it never names the email, the role or the last login |
| AuthController.UpdatedUser | controllers/authController.js:146 | each given key takes its value; email, role and last login never change |
| AuthController.AssignProfilePaths | controllers/authController.js:146 | assigning the body's keys one by one, in any order, gives the updated user |
| AuthController.UpdateProfile | controllers/authController.js:125-159 | 400 on any key outside firstName, lastName, phoneNumber and password (before the lookup); 404 on a missing user; failure changes nothing; success writes exactly the given keys of that user |

## Left out

- Availability: what `room.isAvailable` decides is not part of this model. It is the parameter `available`, which gives one answer per room and interval within a request.
- Concurrency: the handlers run one at a time. The race between the availability check and the save is not modelled.
- HTTP and JSON: the reply envelope (`success`, `count`, field names) and `populate` projections are not modelled. The outcome carries the status and the data or message.
- Identifiers: a malformed id string, and the `CastError` it causes, is not modelled. Ids are natural numbers.
- Timestamps: `createdAt` and `updatedAt` are not stored. Creation order is the id order.
- Query sort: the `sort` query parameter of getAllBookings is not modelled. The listing is always newest first.
- Query dates: a date in the query of getAllBookings is an instant, so an unparsable date there is not modelled.
- Availability dates: checkAvailability takes its two dates as instants. A missing or unparsable query date, which `new Date` turns into `Invalid Date`, cannot be written.
- Listing ties: among rooms of equal price, the featured selection's order is unspecified, as in the database.
- getCategories: not modelled. It only lists categories with a `populate` projection.
- addReview: not modelled. It writes a `reviews` path the room schema does not declare.
- Authentication: JWT signing (generateToken), logout, the authentication middleware, password hashing, `getPublicProfile` and the contents of a token are not modelled. The requester is an input, `comparePassword` is the parameter `passwordMatches`, and the stored `password` is what the controller assigned.
- Other models: the User and Category model files are not part of this model.
  - A category's `rooms` is taken to be a stored array of room ids. No room handler updates it, so creating, moving or deleting a room leaves every category's `rooms` as it was.
  - Their validators, defaults and hooks are not modelled, so `createCategory` and `updateCategory` always pass validation.
  - The `save()` of a user after login or a profile update always succeeds.
  - Email uniqueness is kept by the register check only.
- Typed bodies: createBooking, createRoom and register receive typed records, and updateRoom and updateCategory typed patches (`RoomPatch`, `CategoryPatch`). Missing required fields and values of the wrong type in those bodies are not modelled.
- Profile bodies: their values are strings only.
- Floating point: prices and amounts are integers. The occupancy percentage is an exact `real`, with no double rounding.
- Seeds and server: the seed scripts, routes, server start-up and the database connection are not modelled.
- BookingController.UpdateBooking: a date key holding a non-empty string that is neither a date nor a four-digit year is rejected with a cast error right after the 403 check. For such a string that `new Date` cannot read, the handler would pass `Invalid Date` to `isAvailable`, whose answer is outside this model, and report the cast error at `save()`; for the numerals of the `BookingController.DateOf` line below it would go on with a valid date. A `""` date, which reads as no date in the availability check, is modelled as it runs: its `required` error is reported by the save.
- Json values: `Common.Json` has no null, boolean, array or object case, so a body such as `{"guests": null}` or `{"specialRequests": true}` cannot be written.
- BookingController.AssignPath: `""` on a date or number path keeps the old value, because the model's paths cannot be null, where Mongoose sets the path to null. The save that follows always fails on that path's `required` error, which is the only error reported for it (`SaveErrors`), and a cleared start date reads as null to the end date's validator (`AsValidated`). So no outcome depends on the kept value.
- BookingController.Updated: a `""` date or guests value keeps the stored value, for the same reason and with the same effect on the outcome as AssignPath.
- BookingController.DateOf: a string of digits that is not exactly four digits long is refused, here and in `DateCastViolations` and `AssignViolation`, although `new Date` and Mongoose accept many of them. Mongoose reads a numeral of 275761 or more as milliseconds, while `new Date` reads numerals by the engine's own fallback rules, so the date the handler checks and the date it stores can differ.
- BookingController.NumberOf: a string for `guests` casts only when it is all decimal digits, while Mongoose also accepts signs, spaces, decimals and other numerals; `AssignViolation` follows it.
- BookingController.AssignViolation: its messages approximate Mongoose's cast error texts, and its `guests` rule is that of `NumberOf`.
- RoomController.RoomValidationMessage and RoomController.UpdateValidationMessage: they list the failing paths rather than Mongoose's per-path messages.
- BookingSchema.ValidationMessage: the order of the errors inside the message follows the schema order, with the errors recorded by assignments last, which is an approximation of Mongoose's order.
