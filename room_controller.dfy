/** controllers/roomController.js: the catalogue, the detail page, the
    featured rooms, the admin's create, update and delete, and the
    availability query. */
module RoomController {
  import opened Common
  import Text
  import opened RoomSchema
  import opened RoomViews
  import BookingSchema
  import opened Store

  const RoomDeletedMsg := "Chambre supprimée avec succès"
  /** What the runtime throws when the detail page reads the name of a category that no longer exists. */
  const NullCategoryMsg := "Cannot read properties of null (reading 'name')"

  /** The message of the error `save()` rejects a new room with. */
  function RoomValidationMessage(paths: seq<string>): string
  {
    "Room validation failed: " + Text.Join(paths, ", ")
  }

  /** The message of the error an update with validators rejects a body with. */
  function UpdateValidationMessage(paths: seq<string>): string
  {
    "Validation failed: " + Text.Join(paths, ", ")
  }

  /** The catalogue of the rooms with ids below `n`: one entry per room, newest first. */
  lemma CatalogueListsEveryRoom(rooms: map<Id, Room>, n: nat)
    requires forall id | id in rooms :: id < n
    ensures var views := Summaries(NewestFirst(rooms, n));
            && (forall i | 0 <= i < |views| :: views[i].id in rooms && views[i] == Summarize(views[i].id, rooms[views[i].id]))
            && (forall id | id in rooms :: Summarize(id, rooms[id]) in views)
            && (forall i, j | 0 <= i < j < |views| :: views[i].id > views[j].id)
  {
    var listing := NewestFirst(rooms, n);
    NewestFirstListsAll(rooms, n);
    var views := Summaries(listing);
    forall id | id in rooms ensures Summarize(id, rooms[id]) in views {
      assert (id, rooms[id]) in listing;
      var i :| 0 <= i < |listing| && listing[i] == (id, rooms[id]);
      assert views[i] == Summarize(id, rooms[id]);
    }
  }

  /** The catalogue: one entry per room, newest first. */
  method GetAllRooms(db: Database) returns (out: Outcome<seq<RoomSummary>>)
    requires db.Valid()
    ensures out.Success? && out.code == OK
    ensures forall i | 0 <= i < |out.data| ::
              out.data[i].id in db.rooms && out.data[i] == Summarize(out.data[i].id, db.rooms[out.data[i].id])
    ensures forall id | id in db.rooms :: Summarize(id, db.rooms[id]) in out.data
    ensures forall i, j | 0 <= i < j < |out.data| :: out.data[i].id > out.data[j].id
  {
    CatalogueListsEveryRoom(db.rooms, db.nextId);
    return Success(OK, Summaries(NewestFirst(db.rooms, db.nextId)));
  }

  /** The detail page; a room whose category is gone makes the handler throw. */
  method GetRoomById(db: Database, id: Id) returns (out: Outcome<RoomDetail>)
    ensures id !in db.rooms ==> out == Failure(NOT_FOUND, BookingSchema.RoomNotFoundMsg)
    ensures id in db.rooms && db.rooms[id].category !in db.categories ==> out == Failure(BAD_REQUEST, NullCategoryMsg)
    ensures out.Success? <==> id in db.rooms && db.rooms[id].category in db.categories
    ensures out.Success? ==>
              out == Success(OK, Detail(id, db.rooms[id], db.categories[db.rooms[id].category].name))
  {
    if id !in db.rooms {
      return Failure(NOT_FOUND, BookingSchema.RoomNotFoundMsg);
    }
    var room := db.rooms[id];
    if room.category !in db.categories {
      return Failure(BAD_REQUEST, NullCategoryMsg);
    }
    return Success(OK, Detail(id, room, db.categories[room.category].name));
  }

  /** The featured selection among the rooms with ids below `n` shows at
      most three of those rooms, dearest first. */
  lemma ShowcaseEntries(rooms: map<Id, Room>, n: nat, views: seq<FeaturedRoom>)
    requires views == Features(Featured(NewestFirst(rooms, n)))
    ensures |views| <= FeaturedCount
    ensures (forall id | id in rooms :: id < n) ==>
              |views| == if |rooms| < FeaturedCount then |rooms| else FeaturedCount
    ensures forall i | 0 <= i < |views| :: views[i].id in rooms && views[i] == Feature(views[i].id, rooms[views[i].id])
    ensures forall i, j | 0 <= i < j < |views| :: views[i].id != views[j].id
    ensures forall i, j | 0 <= i < j < |views| :: views[i].price >= views[j].price
  {
    var listing := NewestFirst(rooms, n);
    var chosen := Featured(listing);
    FeaturedEntriesAreDearest(listing);
    forall i | 0 <= i < |views| ensures views[i].id in rooms && views[i] == Feature(views[i].id, rooms[views[i].id]) {
      assert chosen[i] in chosen;
    }
    PickedIdsDistinct(rooms, n, chosen);
    forall i, j | 0 <= i < j < |views| ensures views[i].id != views[j].id {
      assert views[i].id == chosen[i].0 && views[j].id == chosen[j].0;
    }
    if forall id | id in rooms :: id < n {
      NewestFirstCount(rooms, n);
    }
  }

  /** A room left out of the featured selection is no dearer than any room shown. */
  lemma LeftOutNoDearer(rooms: map<Id, Room>, n: nat, views: seq<FeaturedRoom>, id: Id)
    requires id in rooms && id < n
    requires views == Features(Featured(NewestFirst(rooms, n)))
    requires forall i | 0 <= i < |views| :: views[i].id != id
    ensures forall i | 0 <= i < |views| :: rooms[id].price <= views[i].price
  {
    var listing := NewestFirst(rooms, n);
    var chosen := Featured(listing);
    var e := (id, rooms[id]);
    NewestFirstHas(rooms, n, id);
    FeaturedEntriesAreDearest(listing);
    forall i | 0 <= i < |chosen| ensures chosen[i] != e {
      assert views[i].id == chosen[i].0;
    }
    forall i | 0 <= i < |views| ensures rooms[id].price <= views[i].price {
      assert chosen[i] in chosen && views[i].price == chosen[i].1.price;
    }
  }

  /** No room left out of the featured selection is dearer than one shown. */
  lemma ShowcaseIsDearest(rooms: map<Id, Room>, n: nat, views: seq<FeaturedRoom>)
    requires forall id | id in rooms :: id < n
    requires views == Features(Featured(NewestFirst(rooms, n)))
    ensures forall id | id in rooms && (forall i | 0 <= i < |views| :: views[i].id != id) ::
              forall i | 0 <= i < |views| :: rooms[id].price <= views[i].price
  {
    forall id | id in rooms && (forall i | 0 <= i < |views| :: views[i].id != id)
      ensures forall i | 0 <= i < |views| :: rooms[id].price <= views[i].price
    {
      LeftOutNoDearer(rooms, n, views, id);
    }
  }

  /** The featured rooms: three distinct rooms (all of them when there are
      fewer), dearest first, and no room left out is dearer than one shown. */
  method GetFeaturedRooms(db: Database) returns (out: Outcome<seq<FeaturedRoom>>)
    requires db.Valid()
    ensures out.Success? && out.code == OK
    ensures |out.data| == if |db.rooms| < FeaturedCount then |db.rooms| else FeaturedCount
    ensures forall i | 0 <= i < |out.data| ::
              out.data[i].id in db.rooms && out.data[i] == Feature(out.data[i].id, db.rooms[out.data[i].id])
    ensures forall i, j | 0 <= i < j < |out.data| :: out.data[i].id != out.data[j].id
    ensures forall i, j | 0 <= i < j < |out.data| :: out.data[i].price >= out.data[j].price
    ensures forall id | id in db.rooms && (forall i | 0 <= i < |out.data| :: out.data[i].id != id) ::
              forall i | 0 <= i < |out.data| :: db.rooms[id].price <= out.data[i].price
  {
    var views := Features(Featured(NewestFirst(db.rooms, db.nextId)));
    ShowcaseEntries(db.rooms, db.nextId, views);
    ShowcaseIsDearest(db.rooms, db.nextId, views);
    return Success(OK, views);
  }

  /** `new Room(body).save()`: a valid body becomes a new room under a fresh id. */
  method CreateRoom(db: Database, inp: RoomInput) returns (out: Outcome<(Id, Room)>)
    requires db.Valid()
    modifies db`rooms, db`nextId
    ensures db.Valid()
    ensures InvalidPaths(inp) != [] ==>
              && out == Failure(BAD_REQUEST, RoomValidationMessage(InvalidPaths(inp)))
              && db.rooms == old(db.rooms) && db.nextId == old(db.nextId)
    ensures out.Success? <==> InvalidPaths(inp) == []
    ensures out.Success? ==>
              && out == Success(CREATED, (old(db.nextId), Build(inp)))
              && old(db.nextId) !in old(db.rooms)
              && db.rooms == old(db.rooms)[old(db.nextId) := Build(inp)]
  {
    var invalid := InvalidPaths(inp);
    if invalid != [] {
      return Failure(BAD_REQUEST, RoomValidationMessage(invalid));
    }
    var room := Build(inp);
    var id := db.NewId();
    db.PutRoom(id, room);
    return Success(CREATED, (id, room));
  }

  /** `findByIdAndUpdate(id, body, { new: true, runValidators: true })`: the
      given paths are validated first, then the room is looked up and patched. */
  method UpdateRoom(db: Database, id: Id, p: RoomPatch) returns (out: Outcome<(Id, Room)>)
    requires db.Valid()
    modifies db`rooms
    ensures db.Valid()
    ensures PatchInvalidPaths(p) != [] ==> out == Failure(BAD_REQUEST, UpdateValidationMessage(PatchInvalidPaths(p)))
    ensures PatchInvalidPaths(p) == [] && id !in old(db.rooms) ==> out == Failure(NOT_FOUND, BookingSchema.RoomNotFoundMsg)
    ensures out.Failure? ==> db.rooms == old(db.rooms)
    ensures out.Success? <==> PatchInvalidPaths(p) == [] && id in old(db.rooms)
    ensures out.Success? ==>
              && out == Success(OK, (id, ApplyPatch(old(db.rooms)[id], p)))
              && db.rooms == old(db.rooms)[id := ApplyPatch(old(db.rooms)[id], p)]
  {
    var invalid := PatchInvalidPaths(p);
    if invalid != [] {
      return Failure(BAD_REQUEST, UpdateValidationMessage(invalid));
    }
    if id !in db.rooms {
      return Failure(NOT_FOUND, BookingSchema.RoomNotFoundMsg);
    }
    var room := ApplyPatch(db.rooms[id], p);
    ApplyPatchKeepsValid(db.rooms[id], p);
    db.PutRoom(id, room);
    return Success(OK, (id, room));
  }

  /** `findByIdAndDelete`: removes exactly that room. Bookings and category
      lists that refer to it are left as they are. */
  method DeleteRoom(db: Database, id: Id) returns (out: Outcome<string>)
    requires db.Valid()
    modifies db`rooms
    ensures db.Valid()
    ensures id !in old(db.rooms) ==> out == Failure(NOT_FOUND, BookingSchema.RoomNotFoundMsg) && db.rooms == old(db.rooms)
    ensures id in old(db.rooms) ==> out == Success(OK, RoomDeletedMsg) && db.rooms == old(db.rooms) - {id}
  {
    if id !in db.rooms {
      return Failure(NOT_FOUND, BookingSchema.RoomNotFoundMsg);
    }
    db.RemoveRoom(id);
    return Success(OK, RoomDeletedMsg);
  }

  /** The availability query: the room's answer for the interval, with its id. */
  method CheckAvailability(db: Database, id: Id, startDate: int, endDate: int,
                           available: BookingSchema.Availability)
    returns (out: Outcome<(bool, Id)>)
    ensures id !in db.rooms ==> out == Failure(NOT_FOUND, BookingSchema.RoomNotFoundMsg)
    ensures id in db.rooms ==> out == Success(OK, (available(id, startDate, endDate), id))
  {
    if id !in db.rooms {
      return Failure(NOT_FOUND, BookingSchema.RoomNotFoundMsg);
    }
    return Success(OK, (available(id, startDate, endDate), id));
  }
}
