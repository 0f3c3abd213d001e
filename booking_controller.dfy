/** controllers/bookingController.js: creating, listing, reading, updating and
    cancelling bookings. Each handler returns its status code and message or
    payload, and changes the collections the way the handler does. */
module BookingController {
  import opened Common
  import Text
  import RoomSchema
  import opened BookingSchema
  import opened Store

  const BookingNotFoundMsg := "Réservation non trouvée"
  const ForbiddenMsg := "Non autorisé"
  // What the runtime throws when a handler dereferences a missing document.
  const NullUserMsg := "Cannot read properties of null (reading '_id')"
  const NullRoomMsg := "Cannot read properties of null (reading 'isAvailable')"
  const NullRoomStatusMsg := "Cannot set properties of null (setting 'status')"

  /** Only the booking's owner or an admin may read, update or cancel it. */
  predicate MayAccess(b: Booking, rq: Requester)
    ensures rq.role == AdminRole ==> MayAccess(b, rq)
    ensures rq.role != AdminRole ==> (MayAccess(b, rq) <==> b.user == rq.id)
  {
    b.user == rq.id || rq.role == AdminRole
  }

  // ----- createBooking -----

  method CreateBooking(db: Database, rq: Requester, body: BookingBody, now: int, available: Availability)
    returns (out: Outcome<(Id, Booking)>)
    requires db.Valid()
    modifies db`bookings, db`rooms, db`nextId
    ensures db.Valid()
    ensures db.users == old(db.users) && db.categories == old(db.categories)
    ensures body.room !in old(db.rooms) ==> out == Failure(NOT_FOUND, RoomNotFoundMsg)
    ensures body.room in old(db.rooms) && !available(body.room, body.startDate, body.endDate) ==>
              out == Failure(BAD_REQUEST, UnavailableMsg)
    ensures out.Failure? ==> db.bookings == old(db.bookings) && db.rooms == old(db.rooms)
    // save() rejects the booking: the enum errors of the body and the
    // validators' errors, in one validation message.
    ensures body.room in old(db.rooms) && available(body.room, body.startDate, body.endDate)
            && (EnumViolations(body) != [] || Violations(Construct(body, rq.id), now) != []) ==>
              out == Failure(BAD_REQUEST, ValidationMessage(Violations(Construct(body, rq.id), now) + EnumViolations(body)))
    ensures out.Success? <==>
              && body.room in old(db.rooms)
              && available(body.room, body.startDate, body.endDate)
              && EnumViolations(body) == []
              && Violations(Construct(body, rq.id), now) == []
    ensures out.Success? ==>
              var (id, b) := out.data;
              && out.code == CREATED
              && id !in old(db.bookings)
              && db.bookings == old(db.bookings)[id := b]
              && b.user == rq.id
              && b.totalPrice == old(db.rooms)[body.room].price * Duration(b)
              && b == Construct(body, rq.id).(totalPrice := b.totalPrice)
              && db.rooms == old(db.rooms)[body.room := old(db.rooms)[body.room].(status := RoomSchema.Occupied)]
  {
    if body.room !in db.rooms {
      return Failure(NOT_FOUND, RoomNotFoundMsg);
    }
    if !available(body.room, body.startDate, body.endDate) {
      return Failure(BAD_REQUEST, UnavailableMsg);
    }
    out := CommitCreate(db, rq, body, now, available);
  }

  /** The second half of createBooking, once the room exists and is free:
      build, price and save the booking, then mark the room occupied. */
  method CommitCreate(db: Database, rq: Requester, body: BookingBody, now: int, available: Availability)
    returns (out: Outcome<(Id, Booking)>)
    requires db.Valid() && body.room in db.rooms && available(body.room, body.startDate, body.endDate)
    modifies db`bookings, db`rooms, db`nextId
    ensures db.Valid()
    ensures out.Failure? ==> db.bookings == old(db.bookings) && db.rooms == old(db.rooms)
    ensures EnumViolations(body) != [] || Violations(Construct(body, rq.id), now) != [] ==>
              out == Failure(BAD_REQUEST, ValidationMessage(Violations(Construct(body, rq.id), now) + EnumViolations(body)))
    ensures out.Success? <==> EnumViolations(body) == [] && Violations(Construct(body, rq.id), now) == []
    ensures out.Success? ==>
              var (id, b) := out.data;
              && out.code == CREATED
              && id !in old(db.bookings)
              && db.bookings == old(db.bookings)[id := b]
              && b == CalculateTotalPrice(Construct(body, rq.id), old(db.rooms)).value
              && db.rooms == old(db.rooms)[body.room := old(db.rooms)[body.room].(status := RoomSchema.Occupied)]
  {
    var room := db.rooms[body.room];
    var booking := CalculateTotalPrice(Construct(body, rq.id), db.rooms).value;
    var err := SaveError(booking, EnumViolations(body), [], true, false, now, db.rooms, available);
    if err.Some? {
      return Failure(BAD_REQUEST, err.value);
    }
    var id := db.NewId();
    db.PutBooking(id, booking);
    db.PutRoom(body.room, room.(status := RoomSchema.Occupied));
    return Success(CREATED, (id, booking));
  }

  // ----- getAllBookings -----

  /** The query string of the admin listing; "" and `None` stand for absent. */
  datatype BookingQuery = BookingQuery(status: string, startDate: Option<int>, endDate: Option<int>)

  datatype DateRange = DateRange(gte: Option<int>, lte: Option<int>)

  /** The Mongo filter the handler builds. */
  datatype Filter = Filter(status: Option<string>, startDate: Option<DateRange>)

  predicate Matches(f: Filter, b: Booking)
    ensures f == Filter(None, None) ==> Matches(f, b)
    ensures f.status.Some? && Matches(f, b) ==> StatusName(b.status) == f.status.value
  {
    && (f.status.Some? ==> StatusName(b.status) == f.status.value)
    && (f.startDate.Some? ==>
          && (f.startDate.value.gte.Some? ==> b.startDate >= f.startDate.value.gte.value)
          && (f.startDate.value.lte.Some? ==> b.startDate <= f.startDate.value.lte.value))
  }

  /** What the admin listing promises: the status equals the requested one
      when one is given, and the start date lies within the requested bounds
      (both inclusive) when they are given. */
  predicate QuerySelects(q: BookingQuery, b: Booking)
    ensures q == BookingQuery("", None, None) ==> QuerySelects(q, b)
    ensures q.startDate.Some? && q.endDate.Some? && q.endDate.value < q.startDate.value ==> !QuerySelects(q, b)
  {
    && (q.status != "" ==> StatusName(b.status) == q.status)
    && (q.startDate.Some? ==> q.startDate.value <= b.startDate)
    && (q.endDate.Some? ==> b.startDate <= q.endDate.value)
  }

  method BuildFilter(q: BookingQuery) returns (f: Filter)
    ensures forall b :: Matches(f, b) <==> QuerySelects(q, b)
    ensures q.status == "" && q.startDate.None? && q.endDate.None? ==> f == Filter(None, None)
  {
    f := Filter(None, None);
    if q.status != "" {
      f := f.(status := Some(q.status));
    }
    if q.startDate.Some? || q.endDate.Some? {
      var range := DateRange(None, None);
      if q.startDate.Some? {
        range := range.(gte := q.startDate);
      }
      if q.endDate.Some? {
        range := range.(lte := q.endDate);
      }
      f := f.(startDate := Some(range));
    }
  }

  /** The admin listing, newest first. (The `sort` parameter is not modelled.) */
  method GetAllBookings(db: Database, q: BookingQuery) returns (out: Outcome<seq<(Id, Booking)>>)
    requires db.Valid()
    ensures out.Success? && out.code == OK
    ensures forall e :: e in out.data <==> e.0 in db.bookings && db.bookings[e.0] == e.1 && QuerySelects(q, e.1)
    ensures IdsDecreasing(out.data)
  {
    var f := BuildFilter(q);
    var all := NewestFirst(db.bookings, db.nextId);
    NewestFirstListsAll(db.bookings, db.nextId);
    var selected := Select(all, (e: (Id, Booking)) => Matches(f, e.1));
    SelectKeepsNewestFirst(all, (e: (Id, Booking)) => Matches(f, e.1));
    return Success(OK, selected);
  }

  // ----- getUserBookings -----

  /** The requester's own bookings, newest first. */
  method GetUserBookings(db: Database, rq: Requester) returns (out: Outcome<seq<(Id, Booking)>>)
    requires db.Valid()
    ensures out.Success? && out.code == OK
    ensures forall e :: e in out.data <==> e.0 in db.bookings && db.bookings[e.0] == e.1 && e.1.user == rq.id
    ensures IdsDecreasing(out.data)
  {
    var all := NewestFirst(db.bookings, db.nextId);
    NewestFirstListsAll(db.bookings, db.nextId);
    var mine := Select(all, (e: (Id, Booking)) => e.1.user == rq.id);
    SelectKeepsNewestFirst(all, (e: (Id, Booking)) => e.1.user == rq.id);
    return Success(OK, mine);
  }

  // ----- getBooking -----

  method GetBooking(db: Database, rq: Requester, id: Id) returns (out: Outcome<(Id, Booking)>)
    ensures id !in db.bookings ==> out == Failure(NOT_FOUND, BookingNotFoundMsg)
    ensures id in db.bookings && db.bookings[id].user !in db.users ==> out == Failure(BAD_REQUEST, NullUserMsg)
    ensures id in db.bookings && db.bookings[id].user in db.users && !MayAccess(db.bookings[id], rq) ==>
              out == Failure(FORBIDDEN, ForbiddenMsg)
    ensures out.Success? <==> id in db.bookings && db.bookings[id].user in db.users && MayAccess(db.bookings[id], rq)
    ensures out.Success? ==> out == Success(OK, (id, db.bookings[id]))
  {
    if id !in db.bookings {
      return Failure(NOT_FOUND, BookingNotFoundMsg);
    }
    var booking := db.bookings[id];
    // `populate('user')` yields null for a user that no longer exists.
    if booking.user !in db.users {
      return Failure(BAD_REQUEST, NullUserMsg);
    }
    if !MayAccess(booking, rq) {
      return Failure(FORBIDDEN, ForbiddenMsg);
    }
    return Success(OK, (id, booking));
  }

  // ----- updateBooking -----

  const AllowedUpdates: set<string> := {"startDate", "endDate", "guests", "specialRequests"}

  /** Every key of the body is one the handler lets a client change; so
      never the room, the owner, the price or either status. */
  predicate ValidOperation(body: map<string, Json>)
    ensures ValidOperation(body) <==> body.Keys <= AllowedUpdates
    ensures ValidOperation(body) ==>
              && "room" !in body && "user" !in body && "totalPrice" !in body
              && "status" !in body && "paymentStatus" !in body
  {
    forall k | k in body :: k in AllowedUpdates
  }

  /** A bare four-digit year: the year-only form of the ECMAScript date
      time string format, which `new Date` reads as 1 January of that year,
      00:00 UTC. Mongoose's date cast reads it the same way, as it takes a
      numeric string for milliseconds only from 275761 on. */
  predicate IsYearForm(s: string)
  {
    |s| == 4 && forall i | 0 <= i < |s| :: Text.IsDigit(s[i])
  }

  predicate IsLeapYear(y: int)
  {
    y % 4 == 0 && (y % 100 != 0 || y % 400 == 0)
  }

  /** The leap years from year 1 up to `n`, extended below 1 so that a
      difference counts the leap years in between. */
  function LeapsThrough(n: int): int
  {
    n / 4 - n / 100 + n / 400
  }

  /** The instant, in milliseconds from the epoch, at which year `y` begins (UTC). */
  function YearStart(y: int): int
  {
    (365 * (y - 1970) + LeapsThrough(y - 1) - LeapsThrough(1969)) * MsPerDay
  }

  /** Division on a positive divisor has one quotient for each remainder. */
  lemma DivUnique(a: int, d: int, q: int, r: int)
    requires d > 0 && a == d * q + r && 0 <= r < d
    ensures a / d == q
  {
    var q0 := a / d;
    assert a == d * q0 + a % d;
    if q0 < q {
      MulMonotone(q0 + 1, q, d);
    } else if q0 > q {
      MulMonotone(q + 1, q0, d);
    }
  }

  lemma DivStep(y: int, d: int)
    requires d > 0
    ensures y / d - (y - 1) / d == if y % d == 0 then 1 else 0
  {
    var q, r := y / d, y % d;
    assert y == d * q + r;
    if r == 0 {
      assert d * (q - 1) == d * q - d;
      DivUnique(y - 1, d, q - 1, d - 1);
    } else {
      DivUnique(y - 1, d, q, r - 1);
    }
  }

  /** Year `y` lasts 366 days when it is a leap year and 365 otherwise, and
      the epoch is the start of 1970: together these fix YearStart. */
  lemma {:induction false} YearLength(y: int)
    ensures YearStart(1970) == 0
    ensures YearStart(y + 1) - YearStart(y) == (if IsLeapYear(y) then 366 else 365) * MsPerDay
  {
    LeapStep(y);
  }

  /** Counting through year `y` adds one exactly when `y` is a leap year. */
  lemma {:induction false} LeapStep(y: int)
    ensures LeapsThrough(y) - LeapsThrough(y - 1) == if IsLeapYear(y) then 1 else 0
  {
    DivStep(y, 4);
    DivStep(y, 100);
    DivStep(y, 400);
    if y % 400 == 0 {
      DivisorOfMultiple(y, 100, 4);
      DivisorOfMultiple(y, 4, 100);
    } else if y % 100 == 0 {
      DivisorOfMultiple(y, 4, 25);
    }
  }

  lemma DivisorOfMultiple(y: int, d: int, k: int)
    requires d > 0 && k > 0 && y % (d * k) == 0
    ensures y % d == 0
  {
    var q := y / (d * k);
    assert y == (d * k) * q;
    assert y == d * (k * q);
    DivUnique(y, d, k * q, 0);
  }

  /** `{"startDate": "2031"}` names the first instant of 2031. */
  lemma YearNumeralIsDate(body: map<string, Json>)
    requires body == map["startDate" := JText("2031")]
    ensures DatesParse(body) && AssignViolations(body) == []
    ensures DateOf(body["startDate"]) == Some(YearStart(2031))
  {
    assert "2031"[..3] == "203" && "203"[..2] == "20" && "20"[..1] == "2" && "2"[..0] == "";
    assert Text.DecimalValue("2") == 2;
    assert Text.DecimalValue("20") == 20;
    assert Text.DecimalValue("203") == 203;
    assert Text.DecimalValue("2031") == 2031;
  }

  /** The value of a date path after casting: a date, a number of
      milliseconds, or the start of a year written as four digits. */
  function DateOf(v: Json): (r: Option<int>)
    ensures r.Some? <==> !v.JText? || IsYearForm(v.s)
    ensures v.JDate? ==> r == Some(v.ms)
    ensures v.JNum? ==> r == Some(v.n)
    ensures v.JText? && IsYearForm(v.s) ==> r == Some(YearStart(Text.DecimalValue(v.s)))
  {
    match v
    case JDate(_, ms) => Some(ms)
    case JNum(n) => Some(n)
    case JText(s) => if IsYearForm(s) then Some(YearStart(Text.DecimalValue(s))) else None
  }

  /** The value of a number path after casting: a number, or a string of decimal digits. */
  function NumberOf(v: Json): (r: Option<int>)
    ensures v.JNum? ==> r == Some(v.n)
    ensures v.JDate? ==> r == None
    ensures v.JText? ==> (r.Some? <==> v.s != [] && forall i | 0 <= i < |v.s| :: Text.IsDigit(v.s[i]))
  {
    match v
    case JNum(n) => Some(n)
    case JDate(_, _) => None
    case JText(s) =>
      if s != [] && forall i | 0 <= i < |s| :: Text.IsDigit(s[i]) then Some(Text.DecimalValue(s)) else None
  }

  /** The value of a string path after casting: a number is written in decimal. */
  function TextOf(v: Json): (r: string)
    ensures v.JText? ==> r == v.s
    ensures v.JDate? ==> r == v.text
    // a number is written in decimal: reading the digits back gives it
    ensures v.JNum? && v.n >= 0 ==> (forall i | 0 <= i < |r| :: Text.IsDigit(r[i])) && Text.DecimalValue(r) == v.n
  {
    match v
    case JText(s) => s
    case JDate(text, _) => text
    case JNum(n) =>
      if n >= 0 then Text.DecimalRoundTrip(n); Text.IntToDecimal(n) else Text.IntToDecimal(n)
  }

  /** The cast error Mongoose records for a path whose value does not cast. */
  function CastViolation(k: string, kind: string): Violation
  {
    Violation(k, "Cast to " + kind + " failed at path \"" + k + "\"")
  }

  function RequiredMsg(k: string): string
  {
    if k == "startDate" then StartDateRequiredMsg
    else if k == "endDate" then EndDateRequiredMsg
    else GuestsRequiredMsg
  }

  /** What assigning `v` to path `k` records against the document, to be
      reported by the next `save()`: `""` clears a date or number path, so
      its `required` validator fails; a value that does not cast is a cast
      error, and the path keeps its value. (The model's paths cannot hold
      null, so a cleared path keeps its value too; the save that follows
      fails, reports that path's error only, and reads a cleared start date
      as null: see SaveErrors.) */
  function AssignViolation(k: string, v: Json): (r: Option<Violation>)
    ensures r.None? <==>
              && (k == "startDate" || k == "endDate" ==> DateOf(v).Some?)
              && (k == "guests" ==> NumberOf(v).Some?)
    ensures r.Some? ==> r.value.path == k
  {
    if (k == "startDate" || k == "endDate" || k == "guests") && v == JText("") then
      Some(Violation(k, RequiredMsg(k)))
    else if (k == "startDate" || k == "endDate") && DateOf(v).None? then Some(CastViolation(k, "date"))
    else if k == "guests" && NumberOf(v).None? then Some(CastViolation(k, "Number"))
    else None
  }

  function PathViolation(body: map<string, Json>, k: string): (vs: seq<Violation>)
    ensures vs == [] <==> k !in body || AssignViolation(k, body[k]).None?
  {
    if k in body && AssignViolation(k, body[k]).Some? then [AssignViolation(k, body[k]).value] else []
  }

  /** The errors the assignments record, in schema order. */
  function AssignViolations(body: map<string, Json>): (vs: seq<Violation>)
    ensures vs == [] <==> forall k | k in body :: AssignViolation(k, body[k]).None?
  {
    PathViolation(body, "startDate") + PathViolation(body, "endDate") + PathViolation(body, "guests")
  }

  /** Date key `k` holds a non-empty string that does not read as a date. */
  predicate UnparsableDate(body: map<string, Json>, k: string)
  {
    k in body && body[k] != JText("") && DateOf(body[k]).None?
  }

  predicate DatesParse(body: map<string, Json>)
  {
    !UnparsableDate(body, "startDate") && !UnparsableDate(body, "endDate")
  }

  /** The cast errors of the date keys that hold unparsable strings. */
  function DateCastViolations(body: map<string, Json>): (vs: seq<Violation>)
    ensures vs == [] <==> DatesParse(body)
    ensures forall i | 0 <= i < |vs| :: vs[i].path == "startDate" || vs[i].path == "endDate"
  {
    (if UnparsableDate(body, "startDate") then [CastViolation("startDate", "date")] else [])
    + (if UnparsableDate(body, "endDate") then [CastViolation("endDate", "date")] else [])
  }

  /** The booking with the body's paths written: each given key whose value
      casts takes the cast value (special requests trimmed); a key whose value
      does not cast, and every other path, keeps its value. */
  function Updated(b: Booking, body: map<string, Json>): (r: Booking)
    ensures r.startDate ==
              if "startDate" in body && DateOf(body["startDate"]).Some? then DateOf(body["startDate"]).value
              else b.startDate
    ensures r.endDate ==
              if "endDate" in body && DateOf(body["endDate"]).Some? then DateOf(body["endDate"]).value
              else b.endDate
    ensures r.guests ==
              if "guests" in body && NumberOf(body["guests"]).Some? then NumberOf(body["guests"]).value
              else b.guests
    ensures r.specialRequests ==
              if "specialRequests" in body then Some(Text.Trim(TextOf(body["specialRequests"]))) else b.specialRequests
    ensures r.(startDate := b.startDate, endDate := b.endDate, guests := b.guests,
               specialRequests := b.specialRequests) == b
  {
    b.(startDate := if "startDate" in body && DateOf(body["startDate"]).Some? then DateOf(body["startDate"]).value
                    else b.startDate,
       endDate := if "endDate" in body && DateOf(body["endDate"]).Some? then DateOf(body["endDate"]).value
                  else b.endDate,
       guests := if "guests" in body && NumberOf(body["guests"]).Some? then NumberOf(body["guests"]).value
                 else b.guests,
       specialRequests := if "specialRequests" in body then Some(Text.Trim(TextOf(body["specialRequests"])))
                          else b.specialRequests)
  }

  /** `new Date(req.body[k] || stored)`: the body's date when it is truthy,
      else the stored one. (A truthy value that is no date is turned away
      before this is asked.) */
  function CheckDate(body: map<string, Json>, k: string, stored: int): (d: int)
    requires k == "startDate" || k == "endDate"
    ensures DatesParse(body) && k in body && Truthy(body[k]) ==> Some(d) == DateOf(body[k])
    ensures !(k in body && Truthy(body[k])) ==> d == stored
  {
    if k in body && Truthy(body[k]) && DateOf(body[k]).Some? then DateOf(body[k]).value else stored
  }

  /** The availability check of a request that moves a date: the room exists
      and is free for the dates the handler asks about. */
  predicate DatesFree(b: Booking, body: map<string, Json>, rooms: map<Id, RoomSchema.Room>, available: Availability)
  {
    ("startDate" in body || "endDate" in body) ==>
      && b.room in rooms
      && available(b.room, CheckDate(body, "startDate", b.startDate), CheckDate(body, "endDate", b.endDate))
  }

  /** `booking[k] = v` for an allowed key: the setter casts `v`, and a
      value that does not cast leaves the path as it was. */
  function AssignPath(u: Booking, k: string, v: Json): (r: Booking)
    requires k in AllowedUpdates
    ensures AssignViolation(k, v).Some? ==> r == u
  {
    if k == "startDate" then (if DateOf(v).Some? then u.(startDate := DateOf(v).value) else u)
    else if k == "endDate" then (if DateOf(v).Some? then u.(endDate := DateOf(v).value) else u)
    else if k == "guests" then (if NumberOf(v).Some? then u.(guests := NumberOf(v).value) else u)
    else u.(specialRequests := Some(Text.Trim(TextOf(v))))
  }

  /** Writing one more key of the body is writing the body with that key added. */
  lemma UpdatedPut(b: Booking, d: map<string, Json>, k: string, v: Json)
    requires k in AllowedUpdates && k !in d
    ensures Updated(b, d[k := v]) == AssignPath(Updated(b, d), k, v)
  {
  }

  /** One turn of the assignment loop: key `k` moves from `todo` to the written keys. */
  lemma AssignStep(b: Booking, body: map<string, Json>, todo: set<string>, k: string)
    requires ValidOperation(body) && todo <= body.Keys && k in todo
    ensures Updated(b, body - (todo - {k})) == AssignPath(Updated(b, body - todo), k, body[k])
  {
    assert (body - todo)[k := body[k]] == body - (todo - {k});
    UpdatedPut(b, body - todo, k, body[k]);
  }

  /** `updates.forEach(update => booking[update] = req.body[update])`. */
  method AssignPaths(b: Booking, body: map<string, Json>) returns (u: Booking)
    requires ValidOperation(body)
    ensures u == Updated(b, body)
  {
    u := b;
    var todo := body.Keys;
    while todo != {}
      invariant todo <= body.Keys
      invariant u == Updated(b, body - todo)
      decreases todo
    {
      var k :| k in todo;
      AssignStep(b, body, todo, k);
      u := AssignPath(u, k, body[k]);
      todo := todo - {k};
    }
    assert body - {} == body;
  }

  /** The dates of `updated` differ from those of `stored`: `isModified` on either date path. */
  predicate DatesChanged(stored: Booking, updated: Booking)
    ensures !DatesChanged(stored, updated) ==> Duration(updated) == Duration(stored)
  {
    updated.startDate != stored.startDate || updated.endDate != stored.endDate
  }

  /** `await booking.calculateTotalPrice(); await booking.save()` on a loaded
      booking whose paths were reassigned from `stored` to `updated`, the
      assignments having recorded `recorded`. The price is worked out, and a
      missing room fails, before `save()` reports what was recorded. */
  function PriceAndSave(stored: Booking, updated: Booking, rooms: map<Id, RoomSchema.Room>, now: int,
                        available: Availability, recorded: seq<Violation>): (r: Result<Booking>)
    ensures updated.room !in rooms ==> r == Err(RoomNotFoundMsg)
    ensures updated.room in rooms && (recorded != [] || Violations(updated, now) != []) ==>
              r == Err(ValidationMessage(SaveErrors(updated, now, [], recorded)))
    ensures r.Ok? <==>
              && updated.room in rooms
              && recorded == []
              && Violations(updated, now) == []
              && (DatesChanged(stored, updated) && updated.status != Cancelled ==>
                    available(updated.room, updated.startDate, updated.endDate))
    ensures r.Ok? ==>
              && r.value == CalculateTotalPrice(updated, rooms).value
              && Stored(r.value) && StartDateValid(r.value.startDate, now)
    ensures !DatesChanged(stored, updated) ==> r != Err(UnavailableMsg)
    ensures updated.room in rooms && recorded == [] && Violations(updated, now) == []
            && DatesChanged(stored, updated) && updated.status != Cancelled
            && !available(updated.room, updated.startDate, updated.endDate) ==>
              r == Err(UnavailableMsg)
  {
    var priced := CalculateTotalPrice(updated, rooms);
    if priced.Err? then Err(priced.message)
    else
      var err := SaveError(priced.value, [], recorded, false, DatesChanged(stored, updated), now, rooms, available);
      ValidationMessageDistinct(SaveErrors(priced.value, now, [], recorded));
      if err.Some? then Err(err.value) else Ok(priced.value)
  }

  /** When the validators fail on the recorded path only, the save reports
      the recorded error alone. */
  lemma OnlyRecordedReported(b: Booking, now: int, recorded: seq<Violation>)
    requires |recorded| == 1
    requires forall v | v in Violations(AsValidated(b, recorded), now) :: v.path == recorded[0].path
    ensures SaveErrors(b, now, [], recorded) == recorded
  {
    assert PathsOf(recorded) == {recorded[0].path};
    assert WithoutPaths(Violations(AsValidated(b, recorded), now), PathsOf(recorded)) == [];
  }

  /** Clearing the start date of a booking whose start has passed reports
      the `required` error alone: a path is reported once. */
  lemma EmptyStartOneError(b: Booking, rooms: map<Id, RoomSchema.Room>, now: int, available: Availability)
    requires Stored(b) && b.room in rooms && b.endDate > 0 && !StartDateValid(b.startDate, now)
    ensures var body := map["startDate" := JText("")];
            PriceAndSave(b, Updated(b, body), rooms, now, available, AssignViolations(body))
              == Err(ValidationMessage([Violation("startDate", StartDateRequiredMsg)]))
  {
    var body := map["startDate" := JText("")];
    var recorded := [Violation("startDate", StartDateRequiredMsg)];
    assert AssignViolations(body) == recorded;
    assert Updated(b, body) == b;
    OnlyRecordedReported(b, now, recorded);
  }

  /** Moving the start past the stored end while clearing the end date
      reports the end date's `required` error alone. */
  lemma EmptyEndOneError(b: Booking, rooms: map<Id, RoomSchema.Room>, now: int, available: Availability,
                         text: string, start: int)
    requires Stored(b) && b.room in rooms && start >= now && start >= b.endDate
    ensures var body := map["startDate" := JDate(text, start), "endDate" := JText("")];
            PriceAndSave(b, Updated(b, body), rooms, now, available, AssignViolations(body))
              == Err(ValidationMessage([Violation("endDate", EndDateRequiredMsg)]))
  {
    var body := map["startDate" := JDate(text, start), "endDate" := JText("")];
    var recorded := [Violation("endDate", EndDateRequiredMsg)];
    var u := b.(startDate := start);
    assert PathViolation(body, "startDate") == [] && PathViolation(body, "guests") == [];
    assert PathViolation(body, "endDate") == recorded;
    assert Updated(b, body) == u;
    assert Violations(AsValidated(u, recorded), now) == [Violation("endDate", EndDateMsg)];
    OnlyRecordedReported(u, now, recorded);
  }

  method UpdateBooking(db: Database, rq: Requester, id: Id, body: map<string, Json>, now: int,
                       available: Availability)
    returns (out: Outcome<(Id, Booking)>)
    requires db.Valid()
    modifies db`bookings
    ensures db.Valid()
    ensures db.rooms == old(db.rooms) && db.users == old(db.users) && db.categories == old(db.categories)
    ensures db.nextId == old(db.nextId)
    ensures out.Failure? ==> db.bookings == old(db.bookings)
    ensures !ValidOperation(body) ==> out == Failure(BAD_REQUEST, InvalidUpdatesMsg)
    ensures ValidOperation(body) && id !in old(db.bookings) ==> out == Failure(NOT_FOUND, BookingNotFoundMsg)
    ensures ValidOperation(body) && id in old(db.bookings) && !MayAccess(old(db.bookings)[id], rq) ==>
              out == Failure(FORBIDDEN, ForbiddenMsg)
    ensures ValidOperation(body) && id in old(db.bookings) && MayAccess(old(db.bookings)[id], rq)
            && !DatesParse(body) ==>
              out == Failure(BAD_REQUEST, ValidationMessage(DateCastViolations(body)))
    ensures ValidOperation(body) && id in old(db.bookings) && MayAccess(old(db.bookings)[id], rq) && DatesParse(body)
            && ("startDate" in body || "endDate" in body) && old(db.bookings)[id].room !in old(db.rooms) ==>
              out == Failure(BAD_REQUEST, NullRoomMsg)
    ensures ValidOperation(body) && id in old(db.bookings) && MayAccess(old(db.bookings)[id], rq) && DatesParse(body)
            && ("startDate" in body || "endDate" in body)
            && old(db.bookings)[id].room in old(db.rooms)
            && !available(old(db.bookings)[id].room,
                          CheckDate(body, "startDate", old(db.bookings)[id].startDate),
                          CheckDate(body, "endDate", old(db.bookings)[id].endDate)) ==>
              out == Failure(BAD_REQUEST, UnavailableMsg)
    ensures "startDate" !in body && "endDate" !in body ==> out != Failure(BAD_REQUEST, UnavailableMsg)
    // Past the checks, the outcome is that of pricing and saving; a missing
    // room is reported before what the assignments recorded.
    ensures ValidOperation(body) && id in old(db.bookings) && MayAccess(old(db.bookings)[id], rq) && DatesParse(body)
            && DatesFree(old(db.bookings)[id], body, old(db.rooms), available) ==>
              var r := PriceAndSave(old(db.bookings)[id], Updated(old(db.bookings)[id], body), old(db.rooms), now,
                                    available, AssignViolations(body));
              out == if r.Ok? then Success(OK, (id, r.value)) else Failure(BAD_REQUEST, r.message)
    ensures ValidOperation(body) && id in old(db.bookings) && MayAccess(old(db.bookings)[id], rq)
            && "startDate" !in body && "endDate" !in body && old(db.bookings)[id].room !in old(db.rooms) ==>
              out == Failure(BAD_REQUEST, RoomNotFoundMsg)
    ensures out.Success? <==>
              && ValidOperation(body) && id in old(db.bookings) && MayAccess(old(db.bookings)[id], rq)
              && DatesParse(body) && DatesFree(old(db.bookings)[id], body, old(db.rooms), available)
              && PriceAndSave(old(db.bookings)[id], Updated(old(db.bookings)[id], body), old(db.rooms), now,
                              available, AssignViolations(body)).Ok?
    ensures out.Success? ==>
              && id in old(db.bookings) && old(db.bookings)[id].room in old(db.rooms)
              && AssignViolations(body) == []
              // the body's paths written, then the total price worked out again
              && var b := CalculateTotalPrice(Updated(old(db.bookings)[id], body), old(db.rooms)).value;
                 && out == Success(OK, (id, b))
                 && db.bookings == old(db.bookings)[id := b]
                 && StartDateValid(b.startDate, now)
  {
    if !ValidOperation(body) {
      return Failure(BAD_REQUEST, InvalidUpdatesMsg);
    }
    if id !in db.bookings {
      return Failure(NOT_FOUND, BookingNotFoundMsg);
    }
    var booking := db.bookings[id];
    if !MayAccess(booking, rq) {
      return Failure(FORBIDDEN, ForbiddenMsg);
    }
    var dateErrors := DateCastViolations(body);
    if dateErrors != [] {
      return Failure(BAD_REQUEST, ValidationMessage(dateErrors));
    }
    if "startDate" in body || "endDate" in body {
      if booking.room !in db.rooms {
        return Failure(BAD_REQUEST, NullRoomMsg);
      }
      var start := CheckDate(body, "startDate", booking.startDate);
      var end := CheckDate(body, "endDate", booking.endDate);
      if !available(booking.room, start, end) {
        return Failure(BAD_REQUEST, UnavailableMsg);
      }
    }
    out := CommitUpdate(db, id, booking, body, now, available);
  }

  /** The second half of updateBooking, once the request passed its checks:
      assign the paths, price, save, and write the booking back. */
  method CommitUpdate(db: Database, id: Id, booking: Booking, body: map<string, Json>, now: int,
                      available: Availability)
    returns (out: Outcome<(Id, Booking)>)
    requires db.Valid() && id in db.bookings && db.bookings[id] == booking
    requires ValidOperation(body)
    modifies db`bookings
    ensures db.Valid()
    ensures var r := PriceAndSave(booking, Updated(booking, body), db.rooms, now, available, AssignViolations(body));
            && out == (if r.Ok? then Success(OK, (id, r.value)) else Failure(BAD_REQUEST, r.message))
            && db.bookings == if r.Ok? then old(db.bookings)[id := r.value] else old(db.bookings)
  {
    var updated := AssignPaths(booking, body);
    var saved := PriceAndSave(booking, updated, db.rooms, now, available, AssignViolations(body));
    if saved.Err? {
      return Failure(BAD_REQUEST, saved.message);
    }
    db.PutBooking(id, saved.value);
    return Success(OK, (id, saved.value));
  }

  // ----- cancelBooking -----

  method CancelBooking(db: Database, rq: Requester, id: Id, now: int) returns (out: Outcome<(Id, Booking)>)
    requires db.Valid()
    modifies db`bookings, db`rooms
    ensures db.Valid()
    // The failures before the write leave the bookings as they were.
    ensures id !in old(db.bookings) ==>
              out == Failure(NOT_FOUND, BookingNotFoundMsg) && db.bookings == old(db.bookings)
    ensures id in old(db.bookings) && !MayAccess(old(db.bookings)[id], rq) ==>
              out == Failure(FORBIDDEN, ForbiddenMsg) && db.bookings == old(db.bookings)
    ensures id in old(db.bookings) && MayAccess(old(db.bookings)[id], rq)
            && Violations(old(db.bookings)[id].(status := Cancelled), now) != [] ==>
              && out == Failure(BAD_REQUEST, ValidationMessage(Violations(old(db.bookings)[id].(status := Cancelled), now)))
              && db.bookings == old(db.bookings)
    ensures db.bookings == old(db.bookings)
            || (id in old(db.bookings) && db.bookings == old(db.bookings)[id := old(db.bookings)[id].(status := Cancelled)])
    ensures out.Success? <==>
              && id in old(db.bookings) && MayAccess(old(db.bookings)[id], rq)
              && Violations(old(db.bookings)[id].(status := Cancelled), now) == []
              && old(db.bookings)[id].room in old(db.rooms)
    ensures out.Success? ==>
              && id in old(db.bookings) && old(db.bookings)[id].room in old(db.rooms)
              && var b := old(db.bookings)[id];
              && out == Success(OK, (id, b.(status := Cancelled)))
              && db.bookings == old(db.bookings)[id := b.(status := Cancelled)]
              && db.rooms == old(db.rooms)[b.room := old(db.rooms)[b.room].(status := RoomSchema.Available)]
    // The booking is written before the room is looked up, so a missing room
    // fails the request yet leaves the booking cancelled.
    ensures id in old(db.bookings) && MayAccess(old(db.bookings)[id], rq)
            && Violations(old(db.bookings)[id].(status := Cancelled), now) == []
            && old(db.bookings)[id].room !in old(db.rooms) ==>
              && out == Failure(BAD_REQUEST, NullRoomStatusMsg)
              && db.bookings == old(db.bookings)[id := old(db.bookings)[id].(status := Cancelled)]
    ensures !out.Success? ==> db.rooms == old(db.rooms)
    // Nothing guards a repeat: cancelling a cancelled booking whose room is
    // already free leaves every collection as it was.
    ensures id in old(db.bookings) && old(db.bookings)[id].status == Cancelled
            && (old(db.bookings)[id].room in old(db.rooms) ==>
                  old(db.rooms)[old(db.bookings)[id].room].status == RoomSchema.Available) ==>
              db.bookings == old(db.bookings) && db.rooms == old(db.rooms)
  {
    if id !in db.bookings {
      return Failure(NOT_FOUND, BookingNotFoundMsg);
    }
    var booking := db.bookings[id];
    if !MayAccess(booking, rq) {
      return Failure(FORBIDDEN, ForbiddenMsg);
    }
    var cancelled := booking.(status := Cancelled);
    // Neither new nor re-dated, so save() only validates.
    var vs := Violations(cancelled, now);
    if vs != [] {
      return Failure(BAD_REQUEST, ValidationMessage(vs));
    }
    out := CommitCancel(db, id, cancelled);
  }

  /** The second half of cancelBooking: write the cancelled booking, then free its room. */
  method CommitCancel(db: Database, id: Id, cancelled: Booking) returns (out: Outcome<(Id, Booking)>)
    requires db.Valid() && id in db.bookings && Stored(cancelled)
    modifies db`bookings, db`rooms
    ensures db.Valid()
    ensures db.bookings == old(db.bookings)[id := cancelled]
    ensures cancelled.room !in old(db.rooms) ==> out == Failure(BAD_REQUEST, NullRoomStatusMsg) && db.rooms == old(db.rooms)
    ensures cancelled.room in old(db.rooms) ==>
              && out == Success(OK, (id, cancelled))
              && db.rooms == old(db.rooms)[cancelled.room := old(db.rooms)[cancelled.room].(status := RoomSchema.Available)]
  {
    db.PutBooking(id, cancelled);
    if cancelled.room !in db.rooms {
      return Failure(BAD_REQUEST, NullRoomStatusMsg);
    }
    var room := db.rooms[cancelled.room];
    db.PutRoom(cancelled.room, room.(status := RoomSchema.Available));
    return Success(OK, (id, cancelled));
  }
}
