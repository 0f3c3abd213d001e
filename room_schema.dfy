/** The room schema of models/Room.js: field constraints, the amenity and
    status enumerations, the `disponible` default, and the two ways a room
    document is written (a whole new document, or an update of some paths). */
module RoomSchema {
  import opened Common
  import Text

  datatype Amenity =
    | Wifi | Tv | AirConditioning | Minibar | Safe | RoomService | SeaView | Balcony | Jacuzzi

  function AmenityName(a: Amenity): string
  {
    match a
    case Wifi => "wifi"
    case Tv => "tv"
    case AirConditioning => "climatisation"
    case Minibar => "minibar"
    case Safe => "coffre-fort"
    case RoomService => "room-service"
    case SeaView => "vue-mer"
    case Balcony => "balcon"
    case Jacuzzi => "jacuzzi"
  }

  /** The nine values the `amenities` enum accepts, in schema order. */
  const AmenityNames: seq<string> :=
    ["wifi", "tv", "climatisation", "minibar", "coffre-fort", "room-service", "vue-mer", "balcon", "jacuzzi"]

  function ParseAmenity(s: string): (r: Option<Amenity>)
    ensures r.Some? <==> s in AmenityNames
    ensures r.Some? ==> AmenityName(r.value) == s
  {
    if s == "wifi" then Some(Wifi)
    else if s == "tv" then Some(Tv)
    else if s == "climatisation" then Some(AirConditioning)
    else if s == "minibar" then Some(Minibar)
    else if s == "coffre-fort" then Some(Safe)
    else if s == "room-service" then Some(RoomService)
    else if s == "vue-mer" then Some(SeaView)
    else if s == "balcon" then Some(Balcony)
    else if s == "jacuzzi" then Some(Jacuzzi)
    else None
  }

  lemma AmenityRoundTrip(a: Amenity)
    ensures ParseAmenity(AmenityName(a)) == Some(a)
  {
  }

  datatype RoomStatus = Available | Occupied | Maintenance

  function RoomStatusName(st: RoomStatus): string
  {
    match st
    case Available => "disponible"
    case Occupied => "occupée"
    case Maintenance => "maintenance"
  }

  const RoomStatusNames: seq<string> := ["disponible", "occupée", "maintenance"]

  /** The status a room document gets when none is given. */
  const DefaultRoomStatus: RoomStatus := Available

  function ParseRoomStatus(s: string): (r: Option<RoomStatus>)
    ensures r.Some? <==> s in RoomStatusNames
    ensures r.Some? ==> RoomStatusName(r.value) == s
  {
    if s == "disponible" then Some(Available)
    else if s == "occupée" then Some(Occupied)
    else if s == "maintenance" then Some(Maintenance)
    else None
  }

  lemma RoomStatusRoundTrip(st: RoomStatus)
    ensures ParseRoomStatus(RoomStatusName(st)) == Some(st)
  {
  }

  datatype Image = Image(url: string, alt: Option<string>)

  /** A stored room document. */
  datatype Room = Room(
    name: string,
    description: string,
    price: int,
    category: Id,
    capacity: int,
    images: seq<Image>,
    amenities: seq<Amenity>,
    status: RoomStatus)

  // One predicate per path constraint; a required string fails on "".

  /** `name` is required after trimming. */
  predicate NameOk(name: string) { Text.Trim(name) != "" }
  predicate DescriptionOk(description: string) { description != "" }
  predicate PriceOk(price: int) { price >= 0 }
  predicate CapacityOk(capacity: int) { capacity >= 1 }
  /** Every image sub-document carries a `url`. */
  predicate ImagesOk(images: seq<Image>) { forall i | 0 <= i < |images| :: images[i].url != "" }
  /** Every amenity is one of the enum values. */
  predicate AmenitiesOk(names: seq<string>) { forall i | 0 <= i < |names| :: names[i] in AmenityNames }
  predicate StatusOk(status: Option<string>) { status.Some? ==> status.value in RoomStatusNames }

  /** What every stored room satisfies: the constraints hold, and the name is
      already trimmed. */
  ghost predicate SchemaValid(r: Room)
  {
    && r.name != "" && Text.Trimmed(r.name)
    && DescriptionOk(r.description)
    && PriceOk(r.price)
    && CapacityOk(r.capacity)
    && ImagesOk(r.images)
  }

  /** A request body for a new room, with the enum paths still as text. */
  datatype RoomInput = RoomInput(
    name: string,
    description: string,
    price: int,
    category: Id,
    capacity: int,
    images: seq<Image>,
    amenities: seq<string>,
    status: Option<string>)

  /** The paths of `inp` that fail their validator, in schema order. */
  function InvalidPaths(inp: RoomInput): (paths: seq<string>)
    ensures paths == [] <==>
      && NameOk(inp.name) && DescriptionOk(inp.description) && PriceOk(inp.price)
      && CapacityOk(inp.capacity) && ImagesOk(inp.images) && AmenitiesOk(inp.amenities)
      && StatusOk(inp.status)
  {
    (if NameOk(inp.name) then [] else ["name"])
    + (if DescriptionOk(inp.description) then [] else ["description"])
    + (if PriceOk(inp.price) then [] else ["price"])
    + (if CapacityOk(inp.capacity) then [] else ["capacity"])
    + (if ImagesOk(inp.images) then [] else ["images"])
    + (if AmenitiesOk(inp.amenities) then [] else ["amenities"])
    + (if StatusOk(inp.status) then [] else ["status"])
  }

  function ParseAmenities(names: seq<string>): (r: seq<Amenity>)
    requires AmenitiesOk(names)
    ensures |r| == |names|
    ensures forall i | 0 <= i < |r| :: AmenityName(r[i]) == names[i]
  {
    if names == [] then [] else [ParseAmenity(names[0]).value] + ParseAmenities(names[1..])
  }

  function AmenityNamesOf(amenities: seq<Amenity>): (r: seq<string>)
    ensures |r| == |amenities|
    ensures forall i | 0 <= i < |r| :: r[i] == AmenityName(amenities[i])
  {
    if amenities == [] then [] else [AmenityName(amenities[0])] + AmenityNamesOf(amenities[1..])
  }

  /** Reading amenity names and writing them back gives the same names. */
  lemma {:induction false} NamesOfParsed(names: seq<string>)
    requires AmenitiesOk(names)
    ensures AmenityNamesOf(ParseAmenities(names)) == names
  {
    var parsed := ParseAmenities(names);
    assert forall i | 0 <= i < |names| :: AmenityNamesOf(parsed)[i] == names[i];
  }

  /** Writing amenities as names and reading them back gives the same amenities. */
  lemma {:induction false} ParsedNamesOf(amenities: seq<Amenity>)
    ensures AmenitiesOk(AmenityNamesOf(amenities))
    ensures ParseAmenities(AmenityNamesOf(amenities)) == amenities
  {
    var names := AmenityNamesOf(amenities);
    forall i | 0 <= i < |names| ensures names[i] in AmenityNames {
      AmenityRoundTrip(amenities[i]);
    }
    var parsed := ParseAmenities(names);
    forall i | 0 <= i < |parsed| ensures parsed[i] == amenities[i] {
      AmenityRoundTrip(amenities[i]);
      AmenityRoundTrip(parsed[i]);
    }
  }

  /** The amenities after a write of the `amenities` path, if any. */
  function WrittenAmenities(current: seq<Amenity>, given: Option<seq<string>>): (a: seq<Amenity>)
    requires given.Some? ==> AmenitiesOk(given.value)
    ensures given.None? ==> a == current
    ensures given.Some? ==> AmenityNamesOf(a) == given.value
  {
    if given.Some? then NamesOfParsed(given.value); ParseAmenities(given.value) else current
  }

  /** The status after a write of the `status` path, if any. */
  function WrittenStatus(current: RoomStatus, given: Option<string>): (st: RoomStatus)
    requires StatusOk(given)
    ensures given.None? ==> st == current
    ensures given.Some? ==> RoomStatusName(st) == given.value
  {
    if given.Some? then ParseRoomStatus(given.value).value else current
  }

  /** The document `new Room(body)` holds once it passes validation: the
      name trimmed, the enums read, the status defaulted. */
  function Build(inp: RoomInput): (r: Room)
    requires InvalidPaths(inp) == []
    ensures SchemaValid(r)
    ensures r.price == inp.price && r.capacity == inp.capacity && r.category == inp.category
    ensures r.name == Text.Trim(inp.name) && r.description == inp.description && r.images == inp.images
    ensures AmenityNamesOf(r.amenities) == inp.amenities
    ensures inp.status.None? ==> r.status == DefaultRoomStatus
    ensures inp.status.Some? ==> RoomStatusName(r.status) == inp.status.value
  {
    Room(Text.Trim(inp.name), inp.description, inp.price, inp.category, inp.capacity,
         inp.images, WrittenAmenities([], Some(inp.amenities)), WrittenStatus(DefaultRoomStatus, inp.status))
  }

  /** The body that describes a stored room. */
  function ToInput(r: Room): RoomInput
  {
    RoomInput(r.name, r.description, r.price, r.category, r.capacity, r.images,
              AmenityNamesOf(r.amenities), Some(RoomStatusName(r.status)))
  }

  /** A valid room passes validation when written back, and reads back as itself. */
  lemma {:induction false} InputRoundTrip(r: Room)
    requires SchemaValid(r)
    ensures InvalidPaths(ToInput(r)) == []
    ensures Build(ToInput(r)) == r
  {
    Text.TrimOfTrimmed(r.name);
    ParsedNamesOf(r.amenities);
    RoomStatusRoundTrip(r.status);
  }

  /** An update body: the paths it sets, each still as given. */
  datatype RoomPatch = RoomPatch(
    name: Option<string>,
    description: Option<string>,
    price: Option<int>,
    category: Option<Id>,
    capacity: Option<int>,
    images: Option<seq<Image>>,
    amenities: Option<seq<string>>,
    status: Option<string>)

  /** The paths an update sets to a value their validator rejects; an update
      validates only the paths it sets. */
  function PatchInvalidPaths(p: RoomPatch): (paths: seq<string>)
    ensures paths == [] <==>
      && (p.name.Some? ==> NameOk(p.name.value))
      && (p.description.Some? ==> DescriptionOk(p.description.value))
      && (p.price.Some? ==> PriceOk(p.price.value))
      && (p.capacity.Some? ==> CapacityOk(p.capacity.value))
      && (p.images.Some? ==> ImagesOk(p.images.value))
      && (p.amenities.Some? ==> AmenitiesOk(p.amenities.value))
      && StatusOk(p.status)
  {
    (if p.name.None? || NameOk(p.name.value) then [] else ["name"])
    + (if p.description.None? || DescriptionOk(p.description.value) then [] else ["description"])
    + (if p.price.None? || PriceOk(p.price.value) then [] else ["price"])
    + (if p.capacity.None? || CapacityOk(p.capacity.value) then [] else ["capacity"])
    + (if p.images.None? || ImagesOk(p.images.value) then [] else ["images"])
    + (if p.amenities.None? || AmenitiesOk(p.amenities.value) then [] else ["amenities"])
    + (if StatusOk(p.status) then [] else ["status"])
  }

  /** The room after the update: each set path takes its new value (the name
      trimmed, the enums read), every other path keeps its old one. */
  function ApplyPatch(r: Room, p: RoomPatch): (r': Room)
    requires PatchInvalidPaths(p) == []
    ensures r'.name == (if p.name.Some? then Text.Trim(p.name.value) else r.name)
    ensures r'.description == (if p.description.Some? then p.description.value else r.description)
    ensures r'.price == (if p.price.Some? then p.price.value else r.price)
    ensures r'.category == (if p.category.Some? then p.category.value else r.category)
    ensures r'.capacity == (if p.capacity.Some? then p.capacity.value else r.capacity)
    ensures r'.images == (if p.images.Some? then p.images.value else r.images)
    ensures p.amenities.None? ==> r'.amenities == r.amenities
    ensures p.amenities.Some? ==> AmenityNamesOf(r'.amenities) == p.amenities.value
    ensures p.status.None? ==> r'.status == r.status
    ensures p.status.Some? ==> RoomStatusName(r'.status) == p.status.value
  {
    Room(
      if p.name.Some? then Text.Trim(p.name.value) else r.name,
      if p.description.Some? then p.description.value else r.description,
      if p.price.Some? then p.price.value else r.price,
      if p.category.Some? then p.category.value else r.category,
      if p.capacity.Some? then p.capacity.value else r.capacity,
      if p.images.Some? then p.images.value else r.images,
      WrittenAmenities(r.amenities, p.amenities),
      WrittenStatus(r.status, p.status))
  }

  /** An accepted update keeps a valid room valid. */
  lemma ApplyPatchKeepsValid(r: Room, p: RoomPatch)
    requires SchemaValid(r) && PatchInvalidPaths(p) == []
    ensures SchemaValid(ApplyPatch(r, p))
  {
  }
}
