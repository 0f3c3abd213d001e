/** The four collections the controllers read and write, held in memory. */
module Store {
  import opened Common
  import RoomSchema
  import BookingSchema
  import CategorySchema
  import UserSchema

  /** Every key of `m` is below `n`. */
  ghost predicate IdsBelow<T>(m: map<Id, T>, n: nat)
  {
    forall id | id in m :: id < n
  }

  ghost predicate RoomsValid(rooms: map<Id, RoomSchema.Room>)
  {
    forall id | id in rooms :: RoomSchema.SchemaValid(rooms[id])
  }

  ghost predicate BookingsStored(bookings: map<Id, BookingSchema.Booking>)
  {
    forall id | id in bookings :: BookingSchema.Stored(bookings[id])
  }

  class Database {
    var users: map<Id, UserSchema.User>
    var rooms: map<Id, RoomSchema.Room>
    var categories: map<Id, CategorySchema.Category>
    var bookings: map<Id, BookingSchema.Booking>
    /** The next id to hand out; every id in use is below it. */
    var nextId: nat

    /** What holds between requests: ids come from the counter, every room
        satisfies its schema, every booking passed its validators, and emails
        identify users. */
    ghost predicate Valid()
      reads this
    {
      && IdsBelow(users, nextId) && IdsBelow(rooms, nextId)
      && IdsBelow(categories, nextId) && IdsBelow(bookings, nextId)
      && RoomsValid(rooms)
      && BookingsStored(bookings)
      && UserSchema.EmailsUnique(users)
    }

    constructor ()
      ensures Valid()
      ensures users == map[] && rooms == map[] && categories == map[] && bookings == map[]
    {
      users, rooms, categories, bookings := map[], map[], map[], map[];
      nextId := 0;
    }

    /** A fresh document id, unused in every collection. */
    method NewId() returns (id: Id)
      requires Valid()
      modifies this`nextId
      ensures Valid()
      ensures id == old(nextId) && nextId == id + 1
      ensures id !in users && id !in rooms && id !in categories && id !in bookings
    {
      id := nextId;
      nextId := nextId + 1;
    }

    // One write per method, each keeping Valid(), so that a handler reasons
    // about one collection at a time.

    method PutBooking(id: Id, b: BookingSchema.Booking)
      requires Valid() && id < nextId && BookingSchema.Stored(b)
      modifies this`bookings
      ensures Valid()
      ensures bookings == old(bookings)[id := b]
    {
      bookings := bookings[id := b];
    }

    method PutRoom(id: Id, r: RoomSchema.Room)
      requires Valid() && id < nextId && RoomSchema.SchemaValid(r)
      modifies this`rooms
      ensures Valid()
      ensures rooms == old(rooms)[id := r]
    {
      rooms := rooms[id := r];
    }

    method RemoveRoom(id: Id)
      requires Valid()
      modifies this`rooms
      ensures Valid()
      ensures rooms == old(rooms) - {id}
    {
      rooms := rooms - {id};
    }

    method PutCategory(id: Id, c: CategorySchema.Category)
      requires Valid() && id < nextId
      modifies this`categories
      ensures Valid()
      ensures categories == old(categories)[id := c]
    {
      categories := categories[id := c];
    }

    method RemoveCategory(id: Id)
      requires Valid()
      modifies this`categories
      ensures Valid()
      ensures categories == old(categories) - {id}
    {
      categories := categories - {id};
    }

    method PutUser(id: Id, u: UserSchema.User)
      requires Valid() && id < nextId
      requires forall other | other in users && other != id :: users[other].email != u.email
      modifies this`users
      ensures Valid()
      ensures users == old(users)[id := u]
    {
      users := users[id := u];
    }
  }
}
