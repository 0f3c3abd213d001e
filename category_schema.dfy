/** Categories. Their model file is not part of this model; the fields are the
    ones the controllers and the seed data use, `rooms` being the list of room
    ids a category document holds. Also the statistics of
    controllers/categoryController.js. */
module CategorySchema {
  import opened Common
  import RoomSchema

  datatype Category = Category(name: string, description: string, image: string, rooms: seq<Id>)

  /** An update body: the paths it sets. */
  datatype CategoryPatch = CategoryPatch(
    name: Option<string>, description: Option<string>, image: Option<string>, rooms: Option<seq<Id>>)

  /** The category after an update: set paths take the new value, the others keep theirs. */
  function ApplyPatch(c: Category, p: CategoryPatch): (c': Category)
    ensures c'.name == (if p.name.Some? then p.name.value else c.name)
    ensures c'.description == (if p.description.Some? then p.description.value else c.description)
    ensures c'.image == (if p.image.Some? then p.image.value else c.image)
    ensures c'.rooms == (if p.rooms.Some? then p.rooms.value else c.rooms)
  {
    Category(
      if p.name.Some? then p.name.value else c.name,
      if p.description.Some? then p.description.value else c.description,
      if p.image.Some? then p.image.value else c.image,
      if p.rooms.Some? then p.rooms.value else c.rooms)
  }

  /** The ids of a list of entries, in order. */
  function IdsOf(r: seq<(Id, RoomSchema.Room)>): (ids: seq<Id>)
    ensures |ids| == |r|
    ensures forall i | 0 <= i < |r| :: ids[i] == r[i].0
  {
    if r == [] then [] else [r[0].0] + IdsOf(r[1..])
  }

  /** `a` is `b` with some of its elements left out, the rest in order. */
  predicate InOrderWithin(a: seq<Id>, b: seq<Id>)
    decreases |b|
  {
    if a == [] then true
    else if b == [] then false
    else (a[0] == b[0] && InOrderWithin(a[1..], b[1..])) || InOrderWithin(a, b[1..])
  }

  /** `populate('rooms')`: the referenced rooms that still exist, in list
      order and as often as listed; ids of deleted rooms drop out. */
  function Populate(ids: seq<Id>, rooms: map<Id, RoomSchema.Room>): (r: seq<(Id, RoomSchema.Room)>)
    ensures |r| <= |ids|
    ensures forall i | 0 <= i < |r| :: r[i].0 in rooms && rooms[r[i].0] == r[i].1 && r[i].0 in ids
    ensures forall i | 0 <= i < |ids| && ids[i] in rooms :: (ids[i], rooms[ids[i]]) in r
  {
    if ids == [] then []
    else
      var rest := Populate(ids[1..], rooms);
      if ids[0] in rooms then [(ids[0], rooms[ids[0]])] + rest else rest
  }

  /** The populated ids are the listed ids that name a stored room, each as
      often as it is listed and in list order; so when every listed id is
      stored, there are as many rooms as ids. */
  lemma PopulateExact(ids: seq<Id>, rooms: map<Id, RoomSchema.Room>)
    ensures var r := Populate(ids, rooms);
            && (forall id :: multiset(IdsOf(r))[id] == if id in rooms then multiset(ids)[id] else 0)
            && InOrderWithin(IdsOf(r), ids)
            && ((forall i | 0 <= i < |ids| :: ids[i] in rooms) ==> |r| == |ids|)
  {
    PopulateCounts(ids, rooms);
    PopulateInOrder(ids, rooms);
    if forall i | 0 <= i < |ids| :: ids[i] in rooms {
      var r := Populate(ids, rooms);
      assert |multiset(IdsOf(r))| == |multiset(ids)| by {
        assert multiset(IdsOf(r)) == multiset(ids);
      }
    }
  }

  lemma {:induction false} PopulateCounts(ids: seq<Id>, rooms: map<Id, RoomSchema.Room>)
    ensures forall id :: multiset(IdsOf(Populate(ids, rooms)))[id] == if id in rooms then multiset(ids)[id] else 0
  {
    if ids != [] {
      var rest := Populate(ids[1..], rooms);
      PopulateCounts(ids[1..], rooms);
      assert ids == [ids[0]] + ids[1..];
      assert multiset(ids) == multiset([ids[0]]) + multiset(ids[1..]);
      if ids[0] in rooms {
        var r := [(ids[0], rooms[ids[0]])] + rest;
        assert r[1..] == rest;
        assert IdsOf(r) == [ids[0]] + IdsOf(rest);
        assert multiset(IdsOf(r)) == multiset([ids[0]]) + multiset(IdsOf(rest));
      }
    }
  }

  lemma {:induction false} PopulateInOrder(ids: seq<Id>, rooms: map<Id, RoomSchema.Room>)
    ensures InOrderWithin(IdsOf(Populate(ids, rooms)), ids)
  {
    if ids != [] {
      var rest := Populate(ids[1..], rooms);
      PopulateInOrder(ids[1..], rooms);
      if ids[0] in rooms {
        var r := [(ids[0], rooms[ids[0]])] + rest;
        assert r[1..] == rest;
        assert IdsOf(r)[1..] == IdsOf(rest);
      }
    }
  }

  datatype Stats = Stats(totalRooms: nat, availableRooms: nat, occupancyRate: real)

  predicate IsAvailable(entry: (Id, RoomSchema.Room))
  {
    entry.1.status == RoomSchema.Available
  }

  /** `totalRooms ? ((totalRooms - availableRooms) / totalRooms) * 100 : 0`,
      as an exact quotient: the percentage of rooms not available. */
  function OccupancyRate(total: nat, available: nat): (rate: real)
    requires available <= total
    ensures total == 0 ==> rate == 0.0
    ensures 0.0 <= rate <= 100.0
    ensures rate == 0.0 <==> available == total
  {
    if total == 0 then 0.0
    else
      var busy := (total - available) as real;
      var share := busy / total as real;
      assert share * total as real == busy;
      assert 0.0 <= share <= 1.0;
      share * 100.0
  }

  /** The statistics of a category's populated rooms: how many there are, how
      many are `disponible`, and the percentage that are not (0 when there are
      no rooms). */
  function StatsOf(rooms: seq<(Id, RoomSchema.Room)>): (s: Stats)
    ensures s.totalRooms == |rooms|
    ensures s.availableRooms <= s.totalRooms
    ensures s.availableRooms == |Select(rooms, IsAvailable)|
    ensures s.occupancyRate == OccupancyRate(s.totalRooms, s.availableRooms)
  {
    var total := |rooms|;
    var available := |Select(rooms, IsAvailable)|;
    Stats(total, available, OccupancyRate(total, available))
  }
}
