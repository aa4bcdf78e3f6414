/** The in-memory store `MemStorage`: a users table keyed by id, a food-entry
    table, and one id counter per table, both starting at 1.

    The source keeps the food entries in a JavaScript `Map` keyed by id. A
    `Map` iterates in insertion order, and entry ids come from a counter and
    are never reused or deleted, so the map only ever grows at its end; the
    model keeps it as the sequence of entries in insertion order, which is
    also ascending id order. */
module Storage {
  import opened Schema

  /** `Array.prototype.filter`: the elements of `s` that `keep` accepts, in their order. */
  function Filter(s: seq<FoodEntry>, keep: FoodEntry -> bool): (r: seq<FoodEntry>)
    ensures |r| <= |s|
    ensures forall x :: x in r <==> x in s && keep(x)
  {
    if s == [] then []
    else if keep(s[0]) then [s[0]] + Filter(s[1..], keep)
    else Filter(s[1..], keep)
  }

  /** Entry ids strictly increase along `s` (so no id occurs twice). */
  predicate AscendingIds(s: seq<FoodEntry>) {
    forall i, j :: 0 <= i < j < |s| ==> s[i].id < s[j].id
  }

  /** The first filter of `getFoodEntriesByUserId`: the entry belongs to `userId`. */
  function OwnedBy(userId: int): FoodEntry -> bool {
    (e: FoodEntry) => e.userId == userId
  }

  /** The second filter: the entry was created at or after `since`. */
  function CreatedSince(since: Timestamp): FoodEntry -> bool {
    (e: FoodEntry) => e.createdAt >= since
  }

  /** Whether a listing of `userId`'s entries, with the optional cutoff, includes `e`. */
  predicate Listed(e: FoodEntry, userId: int, since: Option<Timestamp>) {
    e.userId == userId && (since.Some? ==> e.createdAt >= since.value)
  }

  /** `Listed` as a single filter predicate. The source has no such one-pass
      filter: this is only the reference against which `FilterTwice` and
      `GetFoodEntriesByUserId` state the two passes of `OwnedBy` and
      `CreatedSince`. */
  function Wanted(userId: int, since: Option<Timestamp>): FoodEntry -> bool {
    (e: FoodEntry) => Listed(e, userId, since)
  }

  /** Filtering keeps the order of what it keeps. */
  lemma {:induction false} FilterAscending(s: seq<FoodEntry>, keep: FoodEntry -> bool)
    requires AscendingIds(s)
    ensures AscendingIds(Filter(s, keep))
  {
    if s != [] {
      var tail := Filter(s[1..], keep);
      FilterAscending(s[1..], keep);
      forall x | x in tail
        ensures s[0].id < x.id
      {
        var k :| 0 <= k < |s[1..]| && s[1..][k] == x;
        assert s[k + 1] == x;
      }
    }
  }

  /** Filters that agree on every element give the same result. */
  lemma {:induction false} FilterAgree(s: seq<FoodEntry>, p: FoodEntry -> bool, q: FoodEntry -> bool)
    requires forall x :: p(x) == q(x)
    ensures Filter(s, p) == Filter(s, q)
  {
    if s != [] {
      FilterAgree(s[1..], p, q);
    }
  }

  /** Filtering twice is filtering once by the conjunction. */
  lemma {:induction false} FilterTwice(s: seq<FoodEntry>, p: FoodEntry -> bool, q: FoodEntry -> bool, both: FoodEntry -> bool)
    requires forall x :: both(x) == (p(x) && q(x))
    ensures Filter(Filter(s, p), q) == Filter(s, both)
  {
    if s != [] {
      FilterTwice(s[1..], p, q, both);
      if p(s[0]) {
        assert Filter(s, p) == [s[0]] + Filter(s[1..], p);
        assert Filter(s, p)[1..] == Filter(s[1..], p);
      }
    }
  }

  /** An element appended to the input appears at the end of the output,
      exactly when the filter accepts it. */
  lemma {:induction false} FilterAppend(s: seq<FoodEntry>, x: FoodEntry, keep: FoodEntry -> bool)
    ensures Filter(s + [x], keep) == Filter(s, keep) + (if keep(x) then [x] else [])
  {
    if s == [] {
      assert s + [x] == [x];
    } else {
      assert (s + [x])[1..] == s[1..] + [x];
      FilterAppend(s[1..], x, keep);
    }
  }

  /** In an ascending sequence the head has the least id, and the tail holds
      every other element and nothing more. */
  lemma AscendingSplit(a: seq<FoodEntry>)
    requires AscendingIds(a) && a != []
    ensures AscendingIds(a[1..])
    ensures forall x :: x in a ==> a[0].id <= x.id
    ensures forall x :: x in a[1..] <==> x in a && x != a[0]
  {
    forall x | x in a
      ensures a[0].id <= x.id
      ensures x in a[1..] <==> x != a[0]
    {
      var i :| 0 <= i < |a| && a[i] == x;
      if i > 0 {
        assert a[1..][i - 1] == x;
      }
    }
    forall x | x in a[1..]
      ensures x != a[0]
    {
      var i :| 0 <= i < |a[1..]| && a[1..][i] == x;
      assert a[i + 1] == x;
    }
  }

  /** A sequence in ascending id order is determined by the set of its
      elements: "exactly these entries, in ascending id order" names one list. */
  lemma {:induction false} AscendingDetermined(a: seq<FoodEntry>, b: seq<FoodEntry>)
    requires AscendingIds(a) && AscendingIds(b)
    requires forall x :: x in a <==> x in b
    ensures a == b
  {
    assert a != [] ==> a[0] in b;
    assert b != [] ==> b[0] in a;
    if a != [] && b != [] {
      AscendingSplit(a);
      AscendingSplit(b);
      assert a[0] == b[0];
      AscendingDetermined(a[1..], b[1..]);
      assert a == [a[0]] + a[1..] && b == [b[0]] + b[1..];
    }
  }

  class MemStorage {
    /** The users table, keyed by id. */
    var users: map<int, User>
    /** The food-entry table, in insertion order. */
    var foodEntries: seq<FoodEntry>
    /** The next id `createUser` hands out. */
    var userId: int
    /** The next id `createFoodEntry` hands out. */
    var entryId: int

    /** Every user row sits under its own id; the entry table holds ids
        1, 2, ... in order, and the entry counter is the next of them.
        Nothing ties the user keys to the user counter: `UpdateUser` may
        store a row under any id. */
    ghost predicate Valid()
      reads this
    {
      userId >= 1 &&
      (forall k :: k in users ==> users[k].id == k) &&
      entryId == |foodEntries| + 1 &&
      (forall i :: 0 <= i < |foodEntries| ==> foodEntries[i].id == i + 1)
    }

    /** A fresh store: both tables empty, both counters at 1. */
    constructor ()
      ensures Valid()
      ensures users == map[] && foodEntries == []
      ensures userId == 1 && entryId == 1
    {
      users := map[];
      foodEntries := [];
      userId := 1;
      entryId := 1;
    }

    /** The row stored under `id`, or absent; changes nothing. */
    method GetUser(id: int) returns (r: Option<User>)
      requires Valid()
      ensures r.Some? <==> id in users
      ensures r.Some? ==> r.value == users[id] && r.value.id == id
    {
      if id in users {
        r := Some(users[id]);
      } else {
        r := None;
      }
    }

    /** Stores `data` under the current user counter and advances it. An
        existing row under that id (put there by `UpdateUser`) is replaced
        without a check. */
    method CreateUser(data: InsertUser) returns (u: User)
      requires Valid()
      modifies this
      ensures Valid()
      ensures u.id == old(userId) && UserPayload(u) == data
      ensures userId == old(userId) + 1
      ensures users == old(users)[u.id := u]
      ensures foodEntries == old(foodEntries) && entryId == old(entryId)
    {
      var id := userId;
      userId := userId + 1;
      u := NewUser(data, id);
      users := users[id := u];
    }

    /** Stores `data` under `id`, whether or not a row was there: an upsert
        that leaves both counters alone. */
    method UpdateUser(id: int, data: InsertUser) returns (u: User)
      requires Valid()
      modifies this
      ensures Valid()
      ensures u.id == id && UserPayload(u) == data
      ensures users == old(users)[id := u]
      ensures userId == old(userId)
      ensures foodEntries == old(foodEntries) && entryId == old(entryId)
    {
      u := NewUser(data, id);
      users := users[id := u];
    }

    /** Stores `data` under the current entry counter, stamped with `now`,
        and advances the counter. */
    method CreateFoodEntry(data: InsertFoodEntry, now: Timestamp) returns (e: FoodEntry)
      requires Valid()
      modifies this
      ensures Valid()
      ensures e.id == old(entryId) && e.createdAt == now && FoodEntryPayload(e) == data
      ensures forall f :: f in old(foodEntries) ==> f.id < e.id
      ensures foodEntries == old(foodEntries) + [e]
      ensures entryId == old(entryId) + 1
      ensures users == old(users) && userId == old(userId)
    {
      var id := entryId;
      entryId := entryId + 1;
      e := NewFoodEntry(data, id, now);
      forall f | f in foodEntries
        ensures f.id < e.id
      {
        var i :| 0 <= i < |foodEntries| && foodEntries[i] == f;
      }
      foodEntries := foodEntries + [e];
    }

    /** `userId`'s entries in insertion order, keeping only those created at
        or after `since` when a cutoff is given; changes nothing. */
    method GetFoodEntriesByUserId(userId: int, since: Option<Timestamp>) returns (r: seq<FoodEntry>)
      requires Valid()
      ensures forall e :: e in r <==> e in foodEntries && Listed(e, userId, since)
      ensures AscendingIds(r)
      ensures r == Filter(foodEntries, Wanted(userId, since))
    {
      assert AscendingIds(foodEntries);
      var entries := Filter(foodEntries, OwnedBy(userId));
      FilterAscending(foodEntries, OwnedBy(userId));
      if since.Some? {
        FilterAscending(entries, CreatedSince(since.value));
        FilterTwice(foodEntries, OwnedBy(userId), CreatedSince(since.value), Wanted(userId, since));
        entries := Filter(entries, CreatedSince(since.value));
      } else {
        FilterAgree(foodEntries, OwnedBy(userId), Wanted(userId, since));
      }
      r := entries;
    }
  }

  /** `UpdateUser` under an id the counter has not reached yet, followed by
      `CreateUser`: the created row silently replaces the updated one. */
  method UpdateAheadThenCreate(early: InsertUser, later: InsertUser)
    returns (before: Option<User>, after: Option<User>)
    ensures before == Some(NewUser(early, 1))
    ensures after == Some(NewUser(later, 1))
  {
    var store := new MemStorage();
    var updated := store.UpdateUser(1, early);
    before := store.GetUser(1);
    var created := store.CreateUser(later);
    after := store.GetUser(1);
  }

  /** Two successive `CreateUser` calls hand out strictly increasing ids, and
      each row can be read back under its id until something overwrites it. */
  method CreateTwice(store: MemStorage, a: InsertUser, b: InsertUser)
    returns (u: User, v: User, got: Option<User>)
    requires store.Valid()
    modifies store
    ensures store.Valid()
    ensures u.id < v.id
    ensures UserPayload(u) == a && UserPayload(v) == b
    ensures got == Some(v)
  {
    u := store.CreateUser(a);
    v := store.CreateUser(b);
    got := store.GetUser(v.id);
  }
}
