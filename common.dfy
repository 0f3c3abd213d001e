/** Values shared by every controller: identifiers, replies, request bodies,
    the authenticated requester and the two ways a collection is listed. */
module Common {

  datatype Option<T> = None | Some(value: T)

  /** What a model-level operation gives back: a value, or the message of the
      `Error` it throws. */
  datatype Result<T> = Ok(value: T) | Err(message: string)

  /** Document identifiers. The database hands them out from one counter, so
      a larger id always means a later `createdAt`. */
  type Id = nat

  /** The reply an Express handler sends: a status code with its payload, or a
      status code with the error message. */
  datatype Outcome<T> = Success(code: int, data: T) | Failure(code: int, message: string)

  const OK := 200
  const CREATED := 201
  const BAD_REQUEST := 400
  const UNAUTHORIZED := 401
  const FORBIDDEN := 403
  const NOT_FOUND := 404

  /** The user that the authentication middleware attached to the request. */
  datatype Requester = Requester(id: Id, role: string)

  const AdminRole := "admin"

  /** What an update handler answers when the body names a path it may not change. */
  const InvalidUpdatesMsg := "Mises à jour non valides"

  /** A JSON value from a request body, as far as the controllers look at it:
      a string that `new Date` parses (its text and the instant `ms` it
      denotes; never a bare decimal numeral, which is a `JText`), a number,
      or any other string. */
  datatype Json = JDate(text: string, ms: int) | JNum(n: int) | JText(s: string)

  /** JavaScript truthiness of a body value (`0` and `""` are falsy; a string
      that parses as a date is not empty). */
  predicate Truthy(v: Json)
    ensures v == JText("") || v == JNum(0) ==> !Truthy(v)
    ensures v.JDate? ==> Truthy(v)
  {
    match v
    case JDate(_, _) => true
    case JNum(n) => n != 0
    case JText(s) => s != ""
  }

  /** The entries of `m` whose id is below `n`, newest (largest id) first:
      the order of a query sorted by `-createdAt`. */
  function NewestFirst<T>(m: map<Id, T>, n: nat): (r: seq<(Id, T)>)
    ensures forall i | 0 <= i < |r| :: r[i].0 < n && r[i].0 in m && m[r[i].0] == r[i].1
    ensures IdsDecreasing(r)
  {
    if n == 0 then []
    else
      var rest := NewestFirst(m, n - 1);
      if n - 1 in m then
        PrependNewer((n - 1, m[n - 1]), rest);
        [(n - 1, m[n - 1])] + rest
      else rest
  }

  /** Every entry of `m` with an id below `n` is listed. */
  lemma {:induction false} NewestFirstHas<T>(m: map<Id, T>, n: nat, id: Id)
    requires id in m && id < n
    ensures (id, m[id]) in NewestFirst(m, n)
  {
    var rest := NewestFirst(m, n - 1);
    if id < n - 1 {
      NewestFirstHas(m, n - 1, id);
      assert NewestFirst(m, n) == (if n - 1 in m then [(n - 1, m[n - 1])] + rest else rest);
    }
  }

  /** When every id of `m` is below `n`, the listing holds every entry of `m`. */
  lemma NewestFirstListsAll<T>(m: map<Id, T>, n: nat)
    requires forall id | id in m :: id < n
    ensures forall id | id in m :: (id, m[id]) in NewestFirst(m, n)
  {
    forall id | id in m ensures (id, m[id]) in NewestFirst(m, n) {
      NewestFirstHas(m, n, id);
    }
  }

  /** The listing has one entry per id of `m` below `n`. */
  lemma {:induction false} NewestFirstSize<T>(m: map<Id, T>, n: nat)
    ensures |NewestFirst(m, n)| == |set id | id in m && id < n|
  {
    if n == 0 {
      assert (set id | id in m && id < n) == {};
    } else {
      NewestFirstSize(m, n - 1);
      var below := set id | id in m && id < n - 1;
      if n - 1 in m {
        assert (set id | id in m && id < n) == below + {n - 1};
      } else {
        assert (set id | id in m && id < n) == below;
      }
    }
  }

  /** When every id of `m` is below `n`, the listing is as long as `m`. */
  lemma NewestFirstCount<T>(m: map<Id, T>, n: nat)
    requires forall id | id in m :: id < n
    ensures |NewestFirst(m, n)| == |m|
  {
    NewestFirstSize(m, n);
    assert (set id | id in m && id < n) == m.Keys;
  }

  ghost predicate Distinct<T>(s: seq<T>)
  {
    forall i, j | 0 <= i < j < |s| :: s[i] != s[j]
  }

  /** An element of a list without repeats occurs once at most. */
  lemma {:induction false} OccursAtMostOnce<T>(s: seq<T>, x: T)
    requires Distinct(s)
    ensures multiset(s)[x] <= 1
  {
    if s != [] {
      assert s == [s[0]] + s[1..];
      assert Distinct(s[1..]) by {
        forall i, j | 0 <= i < j < |s| - 1 ensures s[1..][i] != s[1..][j] {
          assert s[1..][i] == s[i + 1] && s[1..][j] == s[j + 1];
        }
      }
      OccursAtMostOnce(s[1..], x);
      if s[0] == x {
        assert x !in s[1..] by {
          forall k | 0 <= k < |s| - 1 ensures s[1..][k] != x {
            assert s[1..][k] == s[k + 1];
          }
        }
      }
    }
  }

  /** Picking from a list without repeats, repeating nothing in `multiset` terms,
      gives a list without repeats. */
  lemma DistinctPick<T>(s: seq<T>, t: seq<T>)
    requires Distinct(s) && multiset(t) <= multiset(s)
    ensures Distinct(t)
  {
    forall i, j | 0 <= i < j < |t| ensures t[i] != t[j] {
      if t[i] == t[j] {
        var x := t[i];
        assert t == t[..i] + [x] + t[i + 1..j] + [x] + t[j + 1..];
        assert multiset(t)[x] >= 2;
        OccursAtMostOnce(s, x);
      }
    }
  }

  /** Entries picked from the listing of `m` have pairwise distinct ids. */
  lemma PickedIdsDistinct<T>(m: map<Id, T>, n: nat, t: seq<(Id, T)>)
    requires multiset(t) <= multiset(NewestFirst(m, n))
    ensures forall i, j | 0 <= i < j < |t| :: t[i].0 != t[j].0
  {
    var s := NewestFirst(m, n);
    DistinctPick(s, t);
    forall i, j | 0 <= i < j < |t| ensures t[i].0 != t[j].0 {
      assert t[i] in multiset(s) && t[j] in multiset(s);
      assert t[i] in s && t[j] in s;
    }
  }

  /** An entry newer than every entry of a newest-first list can go in front of it. */
  lemma PrependNewer<T>(e: (Id, T), s: seq<(Id, T)>)
    requires IdsDecreasing(s)
    requires forall k | 0 <= k < |s| :: s[k].0 < e.0
    ensures IdsDecreasing([e] + s)
  {
    var r := [e] + s;
    forall i, j | 0 <= i < j < |r| ensures r[i].0 > r[j].0 {
      assert r[j] == s[j - 1];
      if i > 0 {
        assert r[i] == s[i - 1];
      }
    }
  }

  /** The elements of `s` that satisfy `p`, in their order in `s`. */
  function Select<T(!new)>(s: seq<T>, p: T -> bool): (r: seq<T>)
    ensures forall x :: x in r <==> x in s && p(x)
    ensures |r| <= |s|
  {
    if s == [] then []
    else if p(s[0]) then [s[0]] + Select(s[1..], p)
    else Select(s[1..], p)
  }

  /** Ids strictly decreasing along the list. */
  predicate IdsDecreasing<T>(s: seq<(Id, T)>)
  {
    forall i, j | 0 <= i < j < |s| :: s[i].0 > s[j].0
  }

  /** Selecting from a list ordered newest first keeps it ordered newest first. */
  lemma {:induction false} SelectKeepsNewestFirst<T(!new)>(s: seq<(Id, T)>, p: ((Id, T)) -> bool)
    requires IdsDecreasing(s)
    ensures IdsDecreasing(Select(s, p))
  {
    if s != [] {
      assert IdsDecreasing(s[1..]);
      SelectKeepsNewestFirst(s[1..], p);
      var rest := Select(s[1..], p);
      forall k | 0 <= k < |rest| ensures s[0].0 > rest[k].0 {
        assert rest[k] in s[1..];
      }
      if p(s[0]) {
        PrependNewer(s[0], rest);
      }
    }
  }
}
