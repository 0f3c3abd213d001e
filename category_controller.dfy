/** controllers/categoryController.js: reading, creating, updating and
    deleting categories, and the statistics of one category. */
module CategoryController {
  import opened Common
  import RoomSchema
  import opened CategorySchema
  import opened Store

  const CategoryNotFoundMsg := "Catégorie non trouvée"
  const CategoryHasRoomsMsg := "Impossible de supprimer une catégorie avec des chambres associées"
  const CategoryDeletedMsg := "Catégorie supprimée avec succès"

  /** `Room.countDocuments({ category })`: the rooms that name `category` as
      theirs (whatever the category's own `rooms` list says). */
  function RoomCount(rooms: map<Id, RoomSchema.Room>, category: Id): (n: nat)
    ensures n == 0 <==> forall id | id in rooms :: rooms[id].category != category
  {
    NoMembersIffNoneNamesIt(rooms, category);
    |set id | id in rooms && rooms[id].category == category|
  }

  lemma NoMembersIffNoneNamesIt(rooms: map<Id, RoomSchema.Room>, category: Id)
    ensures |set id | id in rooms && rooms[id].category == category| == 0 <==>
            forall id | id in rooms :: rooms[id].category != category
  {
    var members := set id | id in rooms && rooms[id].category == category;
    if forall id | id in rooms :: rooms[id].category != category {
      assert members == {};
    } else {
      var id :| id in rooms && rooms[id].category == category;
      assert id in members;
    }
  }

  /** A category with its `rooms` populated. */
  method GetCategory(db: Database, id: Id) returns (out: Outcome<(Category, seq<(Id, RoomSchema.Room)>)>)
    ensures id !in db.categories ==> out == Failure(NOT_FOUND, CategoryNotFoundMsg)
    ensures id in db.categories ==>
              out == Success(OK, (db.categories[id], Populate(db.categories[id].rooms, db.rooms)))
  {
    if id !in db.categories {
      return Failure(NOT_FOUND, CategoryNotFoundMsg);
    }
    var c := db.categories[id];
    return Success(OK, (c, Populate(c.rooms, db.rooms)));
  }

  /** `new Category(body).save()`: the category is stored under a fresh id. */
  method CreateCategory(db: Database, c: Category) returns (out: Outcome<(Id, Category)>)
    requires db.Valid()
    modifies db`categories, db`nextId
    ensures db.Valid()
    ensures out == Success(CREATED, (old(db.nextId), c))
    ensures old(db.nextId) !in old(db.categories)
    ensures db.categories == old(db.categories)[old(db.nextId) := c]
  {
    var id := db.NewId();
    db.PutCategory(id, c);
    return Success(CREATED, (id, c));
  }

  /** `findByIdAndUpdate(id, body, { new: true, runValidators: true })`: 404
      on a missing id, else the given paths replaced and the others kept (the
      category's validators are not part of this model). */
  method UpdateCategory(db: Database, id: Id, p: CategoryPatch) returns (out: Outcome<(Id, Category)>)
    requires db.Valid()
    modifies db`categories
    ensures db.Valid()
    ensures id !in old(db.categories) ==> out == Failure(NOT_FOUND, CategoryNotFoundMsg) && db.categories == old(db.categories)
    ensures id in old(db.categories) ==>
              && out == Success(OK, (id, ApplyPatch(old(db.categories)[id], p)))
              && db.categories == old(db.categories)[id := ApplyPatch(old(db.categories)[id], p)]
  {
    if id !in db.categories {
      return Failure(NOT_FOUND, CategoryNotFoundMsg);
    }
    var c := ApplyPatch(db.categories[id], p);
    db.PutCategory(id, c);
    return Success(OK, (id, c));
  }

  /** A category is removed only when no room belongs to it; afterwards it is absent. */
  method DeleteCategory(db: Database, id: Id) returns (out: Outcome<string>)
    requires db.Valid()
    modifies db`categories
    ensures db.Valid()
    ensures id !in old(db.categories) ==> out == Failure(NOT_FOUND, CategoryNotFoundMsg)
    ensures id in old(db.categories) && RoomCount(db.rooms, id) > 0 ==> out == Failure(BAD_REQUEST, CategoryHasRoomsMsg)
    ensures out.Failure? ==> db.categories == old(db.categories)
    ensures out.Success? <==> id in old(db.categories) && forall r | r in db.rooms :: db.rooms[r].category != id
    ensures out.Success? ==>
              && out == Success(OK, CategoryDeletedMsg)
              && db.categories == old(db.categories) - {id}
              && id !in db.categories
  {
    if id !in db.categories {
      return Failure(NOT_FOUND, CategoryNotFoundMsg);
    }
    if RoomCount(db.rooms, id) > 0 {
      return Failure(BAD_REQUEST, CategoryHasRoomsMsg);
    }
    db.RemoveCategory(id);
    return Success(OK, CategoryDeletedMsg);
  }

  /** The statistics over the category's populated rooms. */
  method GetCategoryStats(db: Database, id: Id) returns (out: Outcome<Stats>)
    ensures id !in db.categories ==> out == Failure(NOT_FOUND, CategoryNotFoundMsg)
    ensures id in db.categories ==> out == Success(OK, StatsOf(Populate(db.categories[id].rooms, db.rooms)))
    ensures out.Success? ==>
              && out.data.availableRooms <= out.data.totalRooms <= |db.categories[id].rooms|
              && (out.data.totalRooms == 0 ==> out.data.occupancyRate == 0.0)
  {
    if id !in db.categories {
      return Failure(NOT_FOUND, CategoryNotFoundMsg);
    }
    return Success(OK, StatsOf(Populate(db.categories[id].rooms, db.rooms)));
  }
}
