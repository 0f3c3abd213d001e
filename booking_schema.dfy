/** The booking schema of models/Booking.js: the status enumerations and
    defaults, the path validators, the stay duration and price methods, and
    what `save()` checks before a booking is written. */
module BookingSchema {
  import opened Common
  import Text
  import RoomSchema

  datatype BookingStatus = Pending | Confirmed | Cancelled | Completed

  function StatusName(st: BookingStatus): string
  {
    match st
    case Pending => "en attente"
    case Confirmed => "confirmée"
    case Cancelled => "annulée"
    case Completed => "terminée"
  }

  const StatusNames: seq<string> := ["en attente", "confirmée", "annulée", "terminée"]

  const DefaultStatus: BookingStatus := Pending

  function ParseStatus(s: string): (r: Option<BookingStatus>)
    ensures r.Some? <==> s in StatusNames
    ensures r.Some? ==> StatusName(r.value) == s
  {
    if s == "en attente" then Some(Pending)
    else if s == "confirmée" then Some(Confirmed)
    else if s == "annulée" then Some(Cancelled)
    else if s == "terminée" then Some(Completed)
    else None
  }

  lemma StatusRoundTrip(st: BookingStatus)
    ensures ParseStatus(StatusName(st)) == Some(st)
  {
  }

  datatype PaymentStatus = PaymentPending | Paid | Refunded

  function PaymentStatusName(st: PaymentStatus): string
  {
    match st
    case PaymentPending => "en attente"
    case Paid => "payé"
    case Refunded => "remboursé"
  }

  const PaymentStatusNames: seq<string> := ["en attente", "payé", "remboursé"]

  const DefaultPaymentStatus: PaymentStatus := PaymentPending

  function ParsePaymentStatus(s: string): (r: Option<PaymentStatus>)
    ensures r.Some? <==> s in PaymentStatusNames
    ensures r.Some? ==> PaymentStatusName(r.value) == s
  {
    if s == "en attente" then Some(PaymentPending)
    else if s == "payé" then Some(Paid)
    else if s == "remboursé" then Some(Refunded)
    else None
  }

  lemma PaymentStatusRoundTrip(st: PaymentStatus)
    ensures ParsePaymentStatus(PaymentStatusName(st)) == Some(st)
  {
  }

  const DefaultCheckInTime := "14:00"
  const DefaultCheckOutTime := "12:00"

  /** A booking document. Dates are instants in milliseconds. */
  datatype Booking = Booking(
    user: Id,
    room: Id,
    startDate: int,
    endDate: int,
    guests: int,
    totalPrice: int,
    status: BookingStatus,
    paymentStatus: PaymentStatus,
    specialRequests: Option<string>,
    checkInTime: string,
    checkOutTime: string)

  // The path validators; `now` is the instant the validator runs.

  predicate StartDateValid(startDate: int, now: int) { startDate >= now }
  predicate EndDateValid(endDate: int, startDate: int) { endDate > startDate }
  predicate GuestsValid(guests: int) { guests >= 1 }

  const StartDateMsg := "La date de début doit être dans le futur"
  const EndDateMsg := "La date de fin doit être après la date de début"
  const GuestsMsg := "Au moins une personne est requise"
  // The `required` messages of the date and guest paths.
  const StartDateRequiredMsg := "La date de début est requise"
  const EndDateRequiredMsg := "La date de fin est requise"
  const GuestsRequiredMsg := "Le nombre de personnes est requis"

  /** One failed validator: the path and its message. */
  datatype Violation = Violation(path: string, message: string)

  /** The validators that fail on `b` at time `now`, in schema order. */
  function Violations(b: Booking, now: int): (vs: seq<Violation>)
    ensures vs == [] <==>
      StartDateValid(b.startDate, now) && EndDateValid(b.endDate, b.startDate) && GuestsValid(b.guests)
    ensures Violation("startDate", StartDateMsg) in vs <==> !StartDateValid(b.startDate, now)
    ensures Violation("endDate", EndDateMsg) in vs <==> !EndDateValid(b.endDate, b.startDate)
    ensures Violation("guests", GuestsMsg) in vs <==> !GuestsValid(b.guests)
  {
    (if StartDateValid(b.startDate, now) then [] else [Violation("startDate", StartDateMsg)])
    + (if EndDateValid(b.endDate, b.startDate) then [] else [Violation("endDate", EndDateMsg)])
    + (if GuestsValid(b.guests) then [] else [Violation("guests", GuestsMsg)])
  }

  /** The violation an enum path reports for a value outside its enum. */
  function EnumViolation(path: string, value: string): Violation
  {
    Violation(path, "`" + value + "` is not a valid enum value for path `" + path + "`.")
  }

  function ViolationText(v: Violation): string { v.path + ": " + v.message }

  /** One text per error, in order. */
  function ViolationTexts(vs: seq<Violation>): (r: seq<string>)
    ensures |r| == |vs|
    ensures forall i | 0 <= i < |vs| :: r[i] == ViolationText(vs[i])
  {
    if vs == [] then [] else [ViolationText(vs[0])] + ViolationTexts(vs[1..])
  }

  /** The message of the validation error `save()` rejects with. */
  function ValidationMessage(vs: seq<Violation>): string
  {
    "Booking validation failed: " + Text.Join(ViolationTexts(vs), ", ")
  }

  /** A validation failure is told apart from the pre-save hook's errors by its text. */
  lemma ValidationMessageDistinct(vs: seq<Violation>)
    ensures ValidationMessage(vs) != UnavailableMsg && ValidationMessage(vs) != RoomNotFoundMsg
  {
    assert ValidationMessage(vs)[0] == 'B';
    assert UnavailableMsg[0] == 'L';
    assert RoomNotFoundMsg[0] == 'C';
  }

  /** What every stored booking keeps from the validators: the stay ends after
      it starts and has a guest. (`startDate >= now` held only when written.) */
  ghost predicate Stored(b: Booking)
  {
    EndDateValid(b.endDate, b.startDate) && GuestsValid(b.guests)
  }

  // ----- getDuration and calculateTotalPrice -----

  /** Milliseconds in a day (86 400 000). */
  const MsPerDay: int := 1000 * 60 * 60 * 24

  /** `Math.ceil(x / d)` on integers: the one `q` with `(q - 1) * d < x <= q * d`. */
  function CeilDiv(x: int, d: int): (q: int)
    requires d > 0
    ensures (q - 1) * d < x <= q * d
  {
    var f := (-x) / d;
    assert -x == d * f + (-x) % d;
    -f
  }

  lemma MulMonotone(a: int, b: int, d: int)
    requires a <= b && d > 0
    ensures a * d <= b * d
  {
    var n := b - a;
    assert n * d >= 0;
    assert b * d == a * d + n * d;
  }

  /** The bounds pin the quotient down. */
  lemma CeilDivUnique(x: int, d: int, k: int)
    requires d > 0 && (k - 1) * d < x <= k * d
    ensures CeilDiv(x, d) == k
  {
    var q := CeilDiv(x, d);
    if q < k {
      MulMonotone(q, k - 1, d);
    } else if q > k {
      MulMonotone(k, q - 1, d);
    }
  }

  /** `getDuration()`: the stay in days, a started day counting as a whole one. */
  function Duration(b: Booking): (days: int)
    ensures (days - 1) * MsPerDay < b.endDate - b.startDate <= days * MsPerDay
  {
    CeilDiv(b.endDate - b.startDate, MsPerDay)
  }

  /** A stay of exactly `k` days lasts `k` days. */
  lemma DurationOfWholeDays(b: Booking, k: int)
    requires b.endDate - b.startDate == k * MsPerDay
    ensures Duration(b) == k
  {
    CeilDivUnique(k * MsPerDay, MsPerDay, k);
  }

  /** A stay of `k` days and part of another lasts `k + 1` days. */
  lemma DurationRoundsUp(b: Booking, k: int, rest: int)
    requires 0 < rest < MsPerDay
    requires b.endDate - b.startDate == k * MsPerDay + rest
    ensures Duration(b) == k + 1
  {
    CeilDivUnique(k * MsPerDay + rest, MsPerDay, k + 1);
  }

  /** A stay that ends after it starts lasts at least one day. */
  lemma DurationAtLeastOneDay(b: Booking)
    requires b.endDate > b.startDate
    ensures Duration(b) >= 1
  {
  }

  /** `calculateTotalPrice()`: the room's price times the duration, stored in
      `totalPrice`; it throws when the booking's room no longer exists, and
      then `totalPrice` stays as it was. */
  function CalculateTotalPrice(b: Booking, rooms: map<Id, RoomSchema.Room>): (r: Result<Booking>)
    ensures r.Ok? <==> b.room in rooms
    ensures r.Ok? ==> r.value.totalPrice == rooms[b.room].price * Duration(b)
    ensures r.Ok? ==> r.value.(totalPrice := b.totalPrice) == b
    ensures r.Err? ==> r.message == RoomNotFoundMsg
  {
    if b.room !in rooms then Err(RoomNotFoundMsg)
    else Ok(b.(totalPrice := rooms[b.room].price * Duration(b)))
  }

  /** The worked example: at 100 a night, two and a half days is charged as three. */
  lemma TwoAndAHalfDaysChargeThree(b: Booking, rooms: map<Id, RoomSchema.Room>)
    requires b.room in rooms && rooms[b.room].price == 100
    requires b.endDate - b.startDate == 2 * MsPerDay + MsPerDay / 2
    ensures CalculateTotalPrice(b, rooms) == Ok(b.(totalPrice := 300))
  {
    DurationRoundsUp(b, 2, MsPerDay / 2);
  }

  // ----- the pre-save hook and save() -----

  const RoomNotFoundMsg := "Chambre non trouvée"
  // Written as two literals so that proofs can read off its first character.
  const UnavailableMsg := "La chambre " + "n'est pas disponible pour ces dates"

  /** The answer `room.isAvailable(start, end)` gives for room `id` during one
      request. The predicate is defined outside this model. */
  type Availability = (Id, int, int) -> bool

  /** The pre-save hook: a new booking, or one whose dates changed, needs its
      room to exist and to be available for its dates unless it is cancelled;
      any other save goes through unchecked. */
  function PreSaveHook(b: Booking, isNew: bool, datesModified: bool,
                       rooms: map<Id, RoomSchema.Room>, available: Availability): (err: Option<string>)
    ensures !(isNew || datesModified) ==> err == None
    ensures err == Some(RoomNotFoundMsg) <==> (isNew || datesModified) && b.room !in rooms
    ensures err == Some(UnavailableMsg) <==>
      (isNew || datesModified) && b.room in rooms
      && !available(b.room, b.startDate, b.endDate) && b.status != Cancelled
    ensures err.Some? ==> err.value == RoomNotFoundMsg || err.value == UnavailableMsg
  {
    if !(isNew || datesModified) then None
    else if b.room !in rooms then Some(RoomNotFoundMsg)
    else if !available(b.room, b.startDate, b.endDate) && b.status != Cancelled then Some(UnavailableMsg)
    else None
  }

  /** The paths that errors are on. */
  function PathsOf(vs: seq<Violation>): set<string>
  {
    set v | v in vs :: v.path
  }

  /** `vs` without the errors on `paths`, in order. */
  function WithoutPaths(vs: seq<Violation>, paths: set<string>): (r: seq<Violation>)
    ensures forall v :: v in r <==> v in vs && v.path !in paths
    ensures (forall v | v in vs :: v.path !in paths) ==> r == vs
  {
    if vs == [] then []
    else (if vs[0].path in paths then [] else [vs[0]]) + WithoutPaths(vs[1..], paths)
  }

  /** The document as the validators read it. A start date cleared by `""`
      is null, which the end date's `v > this.startDate` compares as 0. */
  function AsValidated(b: Booking, recorded: seq<Violation>): (v: Booking)
    ensures Violation("startDate", StartDateRequiredMsg) !in recorded ==> v == b
    ensures v.(startDate := b.startDate) == b
  {
    if Violation("startDate", StartDateRequiredMsg) in recorded then b.(startDate := 0) else b
  }

  /** The errors `save()` reports: the validators' errors (`extra` being
      those of the enum paths) on every path that has no error recorded yet,
      then the errors the assignments recorded. A path is reported once. */
  function SaveErrors(b: Booking, now: int, extra: seq<Violation>, recorded: seq<Violation>): (vs: seq<Violation>)
    ensures recorded == [] ==> vs == Violations(b, now) + extra
    ensures vs == [] <==> recorded == [] && Violations(b, now) == [] && extra == []
    ensures |recorded| <= |vs| && vs[|vs| - |recorded|..] == recorded
    ensures forall i | 0 <= i < |vs| - |recorded| ::
              vs[i].path !in PathsOf(recorded) && vs[i] in Violations(AsValidated(b, recorded), now) + extra
  {
    assert PathsOf([]) == {};
    WithoutPaths(Violations(AsValidated(b, recorded), now) + extra, PathsOf(recorded)) + recorded
  }

  /** `save()`: validation of the whole document runs first, then the
      pre-save hook; `None` means the document is written. `extra` are the
      enum paths' errors, `recorded` the errors assignments recorded. */
  function SaveError(b: Booking, extra: seq<Violation>, recorded: seq<Violation>, isNew: bool, datesModified: bool,
                     now: int, rooms: map<Id, RoomSchema.Room>, available: Availability): (err: Option<string>)
    ensures err == None ==> Stored(b) && StartDateValid(b.startDate, now)
    ensures err == None <==>
      && extra == [] && recorded == [] && Violations(b, now) == []
      && PreSaveHook(b, isNew, datesModified, rooms, available) == None
    ensures extra != [] || recorded != [] || Violations(b, now) != [] ==>
              err == Some(ValidationMessage(SaveErrors(b, now, extra, recorded)))
    ensures recorded == [] && (extra != [] || Violations(b, now) != []) ==>
              err == Some(ValidationMessage(Violations(b, now) + extra))
    // with every validator passing, the error is the pre-save hook's own
    ensures extra == [] && recorded == [] && Violations(b, now) == [] ==>
              err == PreSaveHook(b, isNew, datesModified, rooms, available)
  {
    var vs := SaveErrors(b, now, extra, recorded);
    if vs != [] then Some(ValidationMessage(vs))
    else PreSaveHook(b, isNew, datesModified, rooms, available)
  }

  // ----- new Booking({...body, user}) -----

  /** The body of a creation request, as the controller spreads it. */
  datatype BookingBody = BookingBody(
    room: Id,
    startDate: int,
    endDate: int,
    guests: int,
    user: Option<Id>,
    totalPrice: Option<int>,
    status: Option<string>,
    paymentStatus: Option<string>,
    specialRequests: Option<string>,
    checkInTime: Option<string>,
    checkOutTime: Option<string>)

  /** The enum values of `body` that the enums reject. */
  function EnumViolations(body: BookingBody): (vs: seq<Violation>)
    ensures vs == [] <==>
      (body.status.Some? ==> body.status.value in StatusNames)
      && (body.paymentStatus.Some? ==> body.paymentStatus.value in PaymentStatusNames)
  {
    (if body.status.None? || ParseStatus(body.status.value).Some? then []
     else [EnumViolation("status", body.status.value)])
    + (if body.paymentStatus.None? || ParsePaymentStatus(body.paymentStatus.value).Some? then []
       else [EnumViolation("paymentStatus", body.paymentStatus.value)])
  }

  /** The document `new Booking({...body, user})` builds: `user` wins over any
      user in the body, absent paths take their defaults, `specialRequests`
      is trimmed. Rejected enum values (see EnumViolations) read as the default
      here; such a document is never written. */
  function Construct(body: BookingBody, user: Id): (b: Booking)
    ensures b.user == user && b.room == body.room
    ensures b.startDate == body.startDate && b.endDate == body.endDate && b.guests == body.guests
    ensures body.status.None? ==> b.status == DefaultStatus
    ensures body.status.Some? && body.status.value in StatusNames ==> StatusName(b.status) == body.status.value
    ensures body.paymentStatus.None? ==> b.paymentStatus == DefaultPaymentStatus
    ensures body.paymentStatus.Some? && body.paymentStatus.value in PaymentStatusNames ==>
              PaymentStatusName(b.paymentStatus) == body.paymentStatus.value
    ensures b.checkInTime == if body.checkInTime.Some? then body.checkInTime.value else DefaultCheckInTime
    ensures b.checkOutTime == if body.checkOutTime.Some? then body.checkOutTime.value else DefaultCheckOutTime
    ensures body.specialRequests.Some? ==> b.specialRequests == Some(Text.Trim(body.specialRequests.value))
    ensures body.specialRequests.None? ==> b.specialRequests.None?
    ensures body.totalPrice.Some? ==> b.totalPrice == body.totalPrice.value
  {
    Booking(
      user,
      body.room,
      body.startDate,
      body.endDate,
      body.guests,
      if body.totalPrice.Some? then body.totalPrice.value else 0,
      if body.status.Some? && ParseStatus(body.status.value).Some? then ParseStatus(body.status.value).value
      else DefaultStatus,
      if body.paymentStatus.Some? && ParsePaymentStatus(body.paymentStatus.value).Some?
      then ParsePaymentStatus(body.paymentStatus.value).value
      else DefaultPaymentStatus,
      if body.specialRequests.Some? then Some(Text.Trim(body.specialRequests.value)) else None,
      if body.checkInTime.Some? then body.checkInTime.value else DefaultCheckInTime,
      if body.checkOutTime.Some? then body.checkOutTime.value else DefaultCheckOutTime)
  }

  /** The body's own `user` never reaches the document. */
  lemma BodyUserIgnored(body: BookingBody, user: Id, other: Option<Id>)
    ensures Construct(body.(user := other), user) == Construct(body, user)
  {
  }
}
