/** The database the controllers work on: one entity per table row, and one
    in-memory table class per `DbSet` the core writes to. A table assigns
    identity keys on insert, as the database does on `SaveChangesAsync`;
    `ExecuteDeleteAsync` is a delete of every row a predicate selects. */
module Persistence {
  import opened Wrappers
  import opened Queries

  /** A calendar day (`DateOnly`), as a day number. */
  type Day = nat

  datatype Review = Review(
    reviewId: int,
    productName: Option<string>,
    userName: Option<string>,
    rating: Option<int>,
    comment: Option<string>,
    userId: Option<int>)

  datatype Wishlist = Wishlist(
    wishlistId: int,
    userId: Option<int>,
    productId: Option<int>,
    dateAdded: Option<Day>)

  datatype Product = Product(productId: int, modelName: Option<string>)

  datatype SupportTicket = SupportTicket(
    ticketId: int,
    userId: Option<int>,
    subject: Option<string>,
    description: Option<string>,
    status: Option<string>)

  datatype Role = Role(roleId: int, roleName: Option<string>)

  datatype User = User(
    userId: int,
    fullName: Option<string>,
    email: Option<string>,
    passwordHash: Option<string>,
    roleId: Option<int>)

  /** No two rows share a key. */
  predicate UniqueKeys<T>(xs: seq<T>, key: T -> int) {
    forall i, j :: 0 <= i < j < |xs| ==> key(xs[i]) != key(xs[j])
  }

  /** Every key is positive and below the next key the table will hand out. */
  predicate KeysBelow<T>(xs: seq<T>, key: T -> int, next: int) {
    forall i :: 0 <= i < |xs| ==> 0 < key(xs[i]) < next
  }

  /** A row whose key no other row has can be put in front. */
  lemma ConsUniqueKeys<T>(h: T, rest: seq<T>, key: T -> int)
    requires UniqueKeys(rest, key)
    requires forall k :: 0 <= k < |rest| ==> key(rest[k]) != key(h)
    ensures UniqueKeys([h] + rest, key)
  {
    var r := [h] + rest;
    forall i, j | 0 <= i < j < |r| ensures key(r[i]) != key(r[j]) {
      assert r[j] == rest[j - 1];
      if i > 0 { assert r[i] == rest[i - 1]; }
    }
  }

  lemma {:induction false} FilterKeepsUniqueKeys<T(!new)>(xs: seq<T>, key: T -> int, p: T -> bool)
    requires UniqueKeys(xs, key)
    ensures UniqueKeys(Filter(xs, p), key)
  {
    if xs != [] {
      var tail := xs[1..];
      var rest := Filter(tail, p);
      assert UniqueKeys(tail, key) by {
        forall i, j | 0 <= i < j < |tail| ensures key(tail[i]) != key(tail[j]) {
          assert tail[i] == xs[i + 1] && tail[j] == xs[j + 1];
        }
      }
      FilterKeepsUniqueKeys(tail, key, p);
      if p(xs[0]) {
        forall k | 0 <= k < |rest| ensures key(rest[k]) != key(xs[0]) {
          assert rest[k] in tail;
          var m :| 0 <= m < |tail| && tail[m] == rest[k];
          assert xs[m + 1] == rest[k];
        }
        ConsUniqueKeys(xs[0], rest, key);
      }
    }
  }

  lemma FilterKeepsKeysBelow<T(!new)>(xs: seq<T>, key: T -> int, next: int, p: T -> bool)
    requires KeysBelow(xs, key, next)
    ensures KeysBelow(Filter(xs, p), key, next)
  {
    var r := Filter(xs, p);
    forall i | 0 <= i < |r| ensures 0 < key(r[i]) < next {
      assert r[i] in xs;
    }
  }

  /** The index of the row with key `id`, if there is one. */
  function IndexOfKey<T>(xs: seq<T>, key: T -> int, id: int): (r: Option<nat>)
    ensures r.Some? ==> r.value < |xs| && key(xs[r.value]) == id
    ensures r.None? ==> forall i :: 0 <= i < |xs| ==> key(xs[i]) != id
  {
    if xs == [] then None
    else if key(xs[0]) == id then Some(0)
    else match IndexOfKey(xs[1..], key, id)
      case Some(i) => Some(i + 1)
      case None => None
  }

  // ---------------------------------------------------------------- tables

  function ReviewKey(r: Review): int { r.reviewId }
  function WishlistKey(w: Wishlist): int { w.wishlistId }
  function TicketKey(t: SupportTicket): int { t.ticketId }
  function UserKey(u: User): int { u.userId }

  /** `_db.Reviews`. */
  class ReviewTable {
    var rows: seq<Review>
    var nextId: int

    ghost predicate Valid()
      reads this
    {
      0 < nextId && UniqueKeys(rows, ReviewKey) && KeysBelow(rows, ReviewKey, nextId)
    }

    constructor ()
      ensures Valid() && rows == []
    {
      rows := [];
      nextId := 1;
    }

    /** `Reviews.Add(r)` then `SaveChangesAsync()`: the row gets a fresh key. */
    method Insert(r: Review) returns (id: int)
      requires Valid()
      modifies this
      ensures Valid()
      ensures id == old(nextId) && rows == old(rows) + [r.(reviewId := id)]
    {
      id := nextId;
      rows := rows + [r.(reviewId := id)];
      nextId := nextId + 1;
    }

    /** Overwrites row `i` with `r`, which keeps the row's key. */
    method Put(i: nat, r: Review)
      requires Valid() && i < |rows| && r.reviewId == rows[i].reviewId
      modifies this
      ensures Valid()
      ensures rows == old(rows)[i := r] && nextId == old(nextId)
    {
      rows := rows[i := r];
    }

    /** `Reviews.Remove(rows[i])` then `SaveChangesAsync()`. */
    method RemoveAt(i: nat)
      requires Valid() && i < |rows|
      modifies this
      ensures Valid()
      ensures rows == old(rows[..i] + rows[i + 1..]) && nextId == old(nextId)
    {
      rows := rows[..i] + rows[i + 1..];
    }
  }

  /** `_db.Wishlists`. */
  class WishlistTable {
    var rows: seq<Wishlist>
    var nextId: int

    ghost predicate Valid()
      reads this
    {
      0 < nextId && UniqueKeys(rows, WishlistKey) && KeysBelow(rows, WishlistKey, nextId)
    }

    constructor ()
      ensures Valid() && rows == []
    {
      rows := [];
      nextId := 1;
    }

    method Insert(w: Wishlist) returns (id: int)
      requires Valid()
      modifies this
      ensures Valid()
      ensures id == old(nextId) && rows == old(rows) + [w.(wishlistId := id)]
    {
      id := nextId;
      rows := rows + [w.(wishlistId := id)];
      nextId := nextId + 1;
    }

    /** `Where(...).ExecuteDeleteAsync()`: every row outside `keep` removed, the rest kept in order. */
    method DeleteWhere(keep: Wishlist -> bool)
      requires Valid()
      modifies this
      ensures Valid()
      ensures rows == Filter(old(rows), keep) && nextId == old(nextId)
    {
      FilterKeepsUniqueKeys(rows, WishlistKey, keep);
      FilterKeepsKeysBelow(rows, WishlistKey, nextId, keep);
      rows := Filter(rows, keep);
    }
  }

  /** `_db.SupportTickets`. */
  class TicketTable {
    var rows: seq<SupportTicket>
    var nextId: int

    ghost predicate Valid()
      reads this
    {
      0 < nextId && UniqueKeys(rows, TicketKey) && KeysBelow(rows, TicketKey, nextId)
    }

    constructor ()
      ensures Valid() && rows == []
    {
      rows := [];
      nextId := 1;
    }

    method Insert(t: SupportTicket) returns (id: int)
      requires Valid()
      modifies this
      ensures Valid()
      ensures id == old(nextId) && rows == old(rows) + [t.(ticketId := id)]
    {
      id := nextId;
      rows := rows + [t.(ticketId := id)];
      nextId := nextId + 1;
    }

    method Put(i: nat, t: SupportTicket)
      requires Valid() && i < |rows| && t.ticketId == rows[i].ticketId
      modifies this
      ensures Valid()
      ensures rows == old(rows)[i := t] && nextId == old(nextId)
    {
      rows := rows[i := t];
    }
  }

  /** No two users share a (non-null) email address. */
  predicate UniqueEmails(users: seq<User>) {
    forall i, j :: 0 <= i < j < |users| && users[i].email.Some? ==> users[i].email != users[j].email
  }

  /** `_db.Users`. Besides the keys, the table keeps email addresses unique:
      every write path checks for a clash before it stores an address. */
  class UserTable {
    var rows: seq<User>
    var nextId: int

    ghost predicate Valid()
      reads this
    {
      0 < nextId && UniqueKeys(rows, UserKey) && KeysBelow(rows, UserKey, nextId) && UniqueEmails(rows)
    }

    constructor ()
      ensures Valid() && rows == []
    {
      rows := [];
      nextId := 1;
    }

    method Insert(u: User) returns (id: int)
      requires Valid()
      requires u.email.Some? ==> forall i :: 0 <= i < |rows| ==> rows[i].email != u.email
      modifies this
      ensures Valid()
      ensures id == old(nextId) && rows == old(rows) + [u.(userId := id)]
    {
      id := nextId;
      rows := rows + [u.(userId := id)];
      nextId := nextId + 1;
    }

    method Put(i: nat, u: User)
      requires Valid() && i < |rows| && u.userId == rows[i].userId
      requires u.email.Some? ==> forall k :: 0 <= k < |rows| && k != i ==> rows[k].email != u.email
      modifies this
      ensures Valid()
      ensures rows == old(rows)[i := u] && nextId == old(nextId)
    {
      rows := rows[i := u];
    }
  }
}
