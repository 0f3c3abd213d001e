/** The shapes in which controllers/roomController.js hands rooms to clients:
    the catalogue entry, the featured entry and the detail page, and the
    price ranking behind the featured rooms. */
module RoomViews {
  import opened Common
  import Text
  import opened RoomSchema

  /** The rating every room shows until reviews are aggregated. */
  const DefaultRating: real := 4.5
  const DefaultReviews: nat := 0
  const SizeUnit := "m²"

  /** An entry of the catalogue (getAllRooms). */
  datatype RoomSummary = RoomSummary(
    id: Id, name: string, description: string, price: int, image: string,
    rating: real, reviews: nat, size: string, maxGuests: int)

  /** An entry of the featured list (getFeaturedRooms). */
  datatype FeaturedRoom = FeaturedRoom(id: Id, name: string, description: string, price: int, image: string)

  /** The detail page (getRoomById). */
  datatype RoomDetail = RoomDetail(
    id: Id, name: string, description: string, longDescription: string, price: int,
    image: string, images: seq<string>, amenities: seq<string>, size: string, maxGuests: int,
    rating: real, reviews: nat, category: string)

  /** `room.images[0]?.url || ''`. */
  function FirstImageUrl(images: seq<Image>): (url: string)
    ensures images != [] ==> url == images[0].url
    ensures images == [] ==> url == ""
  {
    if images == [] then "" else images[0].url
  }

  /** For a stored room the thumbnail is blank exactly when the room has no image. */
  lemma ThumbnailBlankIffNoImages(r: Room)
    requires SchemaValid(r)
    ensures FirstImageUrl(r.images) == "" <==> r.images == []
  {
    if r.images != [] {
      assert r.images[0].url != "";
    }
  }

  /** `room.images.map(img => img.url)`. */
  function ImageUrls(images: seq<Image>): (urls: seq<string>)
    ensures |urls| == |images|
    ensures forall i | 0 <= i < |urls| :: urls[i] == images[i].url
  {
    seq(|images|, i requires 0 <= i < |images| => images[i].url)
  }

  /** `${capacity * 10}m²`: the floor area estimated from the capacity. */
  function SizeLabel(capacity: int): (size: string)
    ensures |size| > |SizeUnit| && size[|size| - |SizeUnit|..] == SizeUnit
  {
    Text.IntToDecimal(capacity * 10) + SizeUnit
  }

  /** The size label of a room reads back as ten square metres per guest. */
  lemma SizeLabelReadsBack(capacity: nat)
    ensures var size := SizeLabel(capacity);
            var digits := size[..|size| - |SizeUnit|];
            && (forall i | 0 <= i < |digits| :: Text.IsDigit(digits[i]))
            && Text.DecimalValue(digits) == 10 * capacity
  {
    var size := SizeLabel(capacity);
    assert size[..|size| - |SizeUnit|] == Text.NatToDecimal(capacity * 10);
    Text.DecimalRoundTrip(capacity * 10);
  }

  function Summarize(id: Id, r: Room): (v: RoomSummary)
    ensures v.id == id && v.name == r.name && v.description == r.description && v.price == r.price
    ensures v.image == FirstImageUrl(r.images) && v.size == SizeLabel(r.capacity) && v.maxGuests == r.capacity
    ensures v.rating == DefaultRating && v.reviews == DefaultReviews
  {
    RoomSummary(id, r.name, r.description, r.price, FirstImageUrl(r.images),
                DefaultRating, DefaultReviews, SizeLabel(r.capacity), r.capacity)
  }

  /** `rooms.map(...)`: one catalogue entry per room, in the same order. */
  function Summaries(rooms: seq<(Id, Room)>): (vs: seq<RoomSummary>)
    ensures |vs| == |rooms|
    ensures forall i | 0 <= i < |vs| :: vs[i] == Summarize(rooms[i].0, rooms[i].1)
  {
    seq(|rooms|, i requires 0 <= i < |rooms| => Summarize(rooms[i].0, rooms[i].1))
  }

  function Feature(id: Id, r: Room): (v: FeaturedRoom)
    ensures v.id == id && v.name == r.name && v.description == r.description && v.price == r.price
    ensures v.image == FirstImageUrl(r.images)
  {
    FeaturedRoom(id, r.name, r.description, r.price, FirstImageUrl(r.images))
  }

  function Features(rooms: seq<(Id, Room)>): (vs: seq<FeaturedRoom>)
    ensures |vs| == |rooms|
    ensures forall i | 0 <= i < |vs| :: vs[i] == Feature(rooms[i].0, rooms[i].1)
  {
    seq(|rooms|, i requires 0 <= i < |rooms| => Feature(rooms[i].0, rooms[i].1))
  }

  /** The detail page of a room whose category is named `categoryName`. */
  function Detail(id: Id, r: Room, categoryName: string): (v: RoomDetail)
    ensures v.id == id && v.name == r.name && v.description == r.description
    ensures v.longDescription == r.description && v.price == r.price
    ensures v.image == FirstImageUrl(r.images) && v.images == ImageUrls(r.images)
    ensures v.amenities == AmenityNamesOf(r.amenities)
    ensures v.size == SizeLabel(r.capacity) && v.maxGuests == r.capacity
    ensures v.rating == DefaultRating && v.reviews == DefaultReviews && v.category == categoryName
  {
    RoomDetail(id, r.name, r.description, r.description, r.price, FirstImageUrl(r.images),
               ImageUrls(r.images), AmenityNamesOf(r.amenities), SizeLabel(r.capacity), r.capacity,
               DefaultRating, DefaultReviews, categoryName)
  }

  /** The detail page leads with its first picture. */
  lemma DetailImageIsFirstOfImages(id: Id, r: Room, categoryName: string)
    requires SchemaValid(r)
    ensures var v := Detail(id, r, categoryName);
            (v.images == [] <==> v.image == "") && (v.images != [] ==> v.image == v.images[0])
  {
    ThumbnailBlankIffNoImages(r);
  }

  // ----- the featured rooms: `sort({ price: -1 })` with `limit(3)` -----

  const FeaturedCount: nat := 3

  predicate PriceDescending(s: seq<(Id, Room)>)
  {
    forall i, j | 0 <= i < j < |s| :: s[i].1.price >= s[j].1.price
  }

  /** `s` with `e` placed before the first entry it is not cheaper than. */
  function InsertByPrice(e: (Id, Room), s: seq<(Id, Room)>): (r: seq<(Id, Room)>)
    ensures |r| == |s| + 1
    ensures multiset(r) == multiset(s) + multiset{e}
  {
    if s == [] then [e]
    else if e.1.price >= s[0].1.price then [e] + s
    else
      assert s == [s[0]] + s[1..];
      [s[0]] + InsertByPrice(e, s[1..])
  }

  /** Inserting into a descending list keeps it descending, and the new head
      is the inserted entry or the old head. */
  lemma {:induction false} InsertKeepsDescending(e: (Id, Room), s: seq<(Id, Room)>)
    requires PriceDescending(s)
    ensures PriceDescending(InsertByPrice(e, s))
    ensures s != [] ==> InsertByPrice(e, s)[0] in {e, s[0]}
  {
    if s != [] && e.1.price < s[0].1.price {
      var rest := InsertByPrice(e, s[1..]);
      InsertKeepsDescending(e, s[1..]);
      assert rest[0].1.price <= s[0].1.price;
      var r := [s[0]] + rest;
      forall i, j | 0 <= i < j < |r| ensures r[i].1.price >= r[j].1.price {
        assert r[j] == rest[j - 1];
        if i > 0 {
          assert r[i] == rest[i - 1];
        } else if j > 1 {
          assert rest[0].1.price >= rest[j - 1].1.price;
        }
      }
      assert InsertByPrice(e, s) == r;
    }
  }

  /** The rooms in order of descending price (ties in no promised order). */
  function SortByPrice(s: seq<(Id, Room)>): (r: seq<(Id, Room)>)
    ensures PriceDescending(r)
    ensures multiset(r) == multiset(s)
  {
    if s == [] then []
    else
      assert s == [s[0]] + s[1..];
      InsertKeepsDescending(s[0], SortByPrice(s[1..]));
      InsertByPrice(s[0], SortByPrice(s[1..]))
  }

  /** The featured rooms: the most expensive ones, at most three, dearest first. */
  function Featured(s: seq<(Id, Room)>): (r: seq<(Id, Room)>)
    ensures |r| == if |s| < FeaturedCount then |s| else FeaturedCount
    ensures PriceDescending(r)
    ensures multiset(r) <= multiset(s)
  {
    var sorted := SortByPrice(s);
    assert |sorted| == |multiset(sorted)| == |s|;
    var k := if |s| < FeaturedCount then |s| else FeaturedCount;
    assert sorted == sorted[..k] + sorted[k..];
    sorted[..k]
  }

  /** In a descending list, nothing after position `k` is dearer than anything before it. */
  lemma TailNoDearer(sorted: seq<(Id, Room)>, k: nat)
    requires PriceDescending(sorted) && k <= |sorted|
    ensures forall x, y | x in sorted[k..] && y in sorted[..k] :: x.1.price <= y.1.price
  {
    forall x, y | x in sorted[k..] && y in sorted[..k] ensures x.1.price <= y.1.price {
      var j :| 0 <= j < |sorted[k..]| && sorted[k..][j] == x;
      var i :| 0 <= i < k && sorted[..k][i] == y;
      assert sorted[i] == y && sorted[k + j] == x;
    }
  }

  /** No room left out of the featured list costs more than one in it. */
  lemma FeaturedAreDearest(s: seq<(Id, Room)>)
    ensures forall x, y | x in multiset(s) - multiset(Featured(s)) && y in Featured(s) :: x.1.price <= y.1.price
  {
    var sorted := SortByPrice(s);
    assert |sorted| == |multiset(sorted)| == |s|;
    var k := if |s| < FeaturedCount then |s| else FeaturedCount;
    assert sorted == sorted[..k] + sorted[k..];
    assert Featured(s) == sorted[..k];
    assert multiset(s) - multiset(Featured(s)) == multiset(sorted[k..]);
    TailNoDearer(sorted, k);
    assert forall x | x in multiset(s) - multiset(Featured(s)) :: x in sorted[k..];
  }

  /** The same on the listing's entries: every featured entry is a listed one,
      and a listed entry left out costs no more than any featured one. */
  lemma FeaturedEntriesAreDearest(s: seq<(Id, Room)>)
    ensures forall y | y in Featured(s) :: y in s
    ensures forall x, y | x in s && x !in Featured(s) && y in Featured(s) :: x.1.price <= y.1.price
  {
    var f := Featured(s);
    FeaturedAreDearest(s);
    forall y | y in f ensures y in s {
      assert y in multiset(f);
    }
    forall x | x in s && x !in f ensures x in multiset(s) - multiset(f) {
      assert x in multiset(s);
    }
  }
}
