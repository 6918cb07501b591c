/** Listing a customer's orders page by page, newest first, while orders keep arriving. */
module Pagination {
  import opened Common
  import Cursor
  import Timestamp

  type Id = Text
  type Customer = nat

  datatype Row = Row(customer: Customer, createdAt: Timestamp.Instant, status: nat)

  type Table = map<Id, Row>

  /** The sort key (created_at, id). */
  datatype Key = Key(at: Timestamp.Instant, id: Id)

  // ---------------------------------------------------------------------------
  // The order of keys
  // ---------------------------------------------------------------------------

  predicate Before(a: Text, b: Text) {
    b != [] && (a == [] || a[0] < b[0] || (a[0] == b[0] && Before(a[1..], b[1..])))
  }

  predicate Less(k: Key, l: Key) {
    k.at < l.at || (k.at == l.at && Before(k.id, l.id))
  }

  lemma {:induction false} BeforeIsStrict(a: Text, b: Text)
    ensures !(Before(a, b) && Before(b, a))
    ensures a == b ==> !Before(a, b)
    ensures a != b ==> Before(a, b) || Before(b, a)
  {
    if a == [] || b == [] {
    } else {
      BeforeIsStrict(a[1..], b[1..]);
      assert a == [a[0]] + a[1..] && b == [b[0]] + b[1..];
    }
  }

  lemma {:induction false} BeforeTransitive(a: Text, b: Text, c: Text)
    requires Before(a, b) && Before(b, c)
    ensures Before(a, c)
  {
    if a == [] {
    } else if a[0] == b[0] == c[0] {
      BeforeTransitive(a[1..], b[1..], c[1..]);
    }
  }

  /** Before is the order of texts: b goes on where a ends, or the first bytes to differ decide. */
  lemma {:induction false} BeforeIsLexicographic(a: Text, b: Text)
    ensures Before(a, b) <==>
              exists k :: 0 <= k <= |a| && k < |b| && a[..k] == b[..k] && (k == |a| || a[k] < b[k])
  {
    if a == [] || b == [] {
      assert b != [] ==> a[..0] == b[..0];
    } else {
      BeforeIsLexicographic(a[1..], b[1..]);
      if Before(a, b) {
        if a[0] < b[0] {
          assert a[..0] == b[..0];
        } else {
          var k :| 0 <= k <= |a| - 1 && k < |b| - 1 && a[1..][..k] == b[1..][..k]
            && (k == |a| - 1 || a[1..][k] < b[1..][k]);
          assert a[..k + 1] == [a[0]] + a[1..][..k] && b[..k + 1] == [b[0]] + b[1..][..k];
        }
      }
      if k :| 0 <= k <= |a| && k < |b| && a[..k] == b[..k] && (k == |a| || a[k] < b[k]) {
        if k > 0 {
          assert a[0] == a[..k][0] == b[..k][0] == b[0];
          assert a[1..][..k - 1] == a[..k][1..] == b[..k][1..] == b[1..][..k - 1];
        }
      }
    }
  }

  lemma LessIsStrict(k: Key, l: Key)
    ensures !(Less(k, l) && Less(l, k))
    ensures k == l ==> !Less(k, l)
    ensures k != l ==> Less(k, l) || Less(l, k)
  {
    BeforeIsStrict(k.id, l.id);
  }

  lemma LessTransitive(k: Key, l: Key, m: Key)
    requires Less(k, l) && Less(l, m)
    ensures Less(k, m)
  {
    if k.at == m.at {
      BeforeTransitive(k.id, l.id, m.id);
    }
  }

  predicate Descending(keys: seq<Key>) {
    forall i, j | 0 <= i < j < |keys| :: Less(keys[j], keys[i])
  }

  // ---------------------------------------------------------------------------
  // One page
  // ---------------------------------------------------------------------------

  /** WHERE customer_id = customer AND (created_at, id) < bound */
  function Below(t: Table, customer: Customer, bound: Option<Key>): set<Key> {
    set id | id in t && t[id].customer == customer && (bound.None? || Less(Key(t[id].createdAt, id), bound.value))
      :: Key(t[id].createdAt, id)
  }

  /** ORDER BY created_at DESC, id DESC LIMIT limit */
  ghost predicate IsPage(rows: set<Key>, limit: nat, page: seq<Key>) {
    && |page| <= limit
    && Descending(page)
    && (forall i | 0 <= i < |page| :: page[i] in rows)
    && (forall k | k in rows && k !in page :: |page| == limit && forall i | 0 <= i < |page| :: Less(k, page[i]))
  }

  /** The zone in which instants are rendered; the text of every stored instant fits. */
  ghost predicate Renders(zone: Timestamp.Instant -> int, t: Table) {
    forall id | id in t :: Cursor.Representable(t[id].createdAt, zone(t[id].createdAt))
  }

  function NextCursor(zone: Timestamp.Instant -> int, limit: nat, page: seq<Key>): Text
    requires |page| == limit > 0 ==> Cursor.Representable(page[limit - 1].at, zone(page[limit - 1].at))
  {
    if |page| == limit > 0 then Cursor.Encode(page[limit - 1].at, zone(page[limit - 1].at), page[limit - 1].id) else []
  }

  /** What a cursor bounds the page by: nothing if empty, an error if unreadable. */
  function Bound(cursor: Text): Option<Option<Key>> {
    if cursor == [] then Some(None)
    else
      match Cursor.Decode(cursor)
      case None => None
      case Some((at, id)) => Some(Some(Key(at, id)))
  }

  /** One answer to a list request. */
  ghost predicate IsListing(zone: Timestamp.Instant -> int, t: Table, customer: Customer, cursor: Text, limit: nat,
                            page: seq<Key>, next: Text)
  {
    && Renders(zone, t)
    && limit > 0
    && Bound(cursor).Some?
    && IsPage(Below(t, customer, Bound(cursor).value), limit, page)
    && (|page| == limit ==> Cursor.Representable(page[limit - 1].at, zone(page[limit - 1].at)))
    && next == NextCursor(zone, limit, page)
  }

  /** An answer whose reading broke off: a proper prefix of the page, as if it were the last. */
  ghost predicate IsBroken(zone: Timestamp.Instant -> int, t: Table, customer: Customer, cursor: Text, limit: nat,
                           page: seq<Key>, next: Text)
  {
    && Renders(zone, t)
    && limit > 0
    && Bound(cursor).Some?
    && next == []
    && exists whole :: IsPage(Below(t, customer, Bound(cursor).value), limit, whole) && page < whole
  }

  lemma BrokenOff(zone: Timestamp.Instant -> int, t: Table, customer: Customer, cursor: Text, limit: nat,
                  whole: seq<Key>, page: seq<Key>)
    requires Renders(zone, t) && limit > 0 && Bound(cursor).Some?
    requires IsPage(Below(t, customer, Bound(cursor).value), limit, whole) && page < whole
    ensures IsBroken(zone, t, customer, cursor, limit, page, [])
  {
  }

  /** What an answer shows of the table, cursor and customer being those of the request: only
      the customer's stored orders, none that the cursor has passed, newest first, at most
      `limit`; and any other order of the customer has been passed or is older than all shown,
      there being no room for it, or reading having broken off. */
  ghost predicate Shows(t: Table, customer: Customer, cursor: Text, limit: nat, page: seq<Key>, whole: bool) {
    && |page| <= limit
    && (cursor == [] || Cursor.Decode(cursor).Some?)
    && (forall k | k in page :: k.id in t && t[k.id].customer == customer && t[k.id].createdAt == k.at)
    && (forall k | k in page && cursor != [] ::
          IsOlder(k, Cursor.Decode(cursor).value.0, Cursor.Decode(cursor).value.1))
    && (forall i, j | 0 <= i < j < |page| :: IsOlder(page[j], page[i].at, page[i].id))
    && (forall id | id in t && t[id].customer == customer ::
          var k := Key(t[id].createdAt, id);
          || k in page
          || (cursor != [] && !IsOlder(k, Cursor.Decode(cursor).value.0, Cursor.Decode(cursor).value.1))
          || ((|page| == limit || !whole) && forall i | 0 <= i < |page| :: IsOlder(k, page[i].at, page[i].id)))
  }

  /** Created before the given instant, or then and with the lesser id. */
  ghost predicate IsOlder(k: Key, at: Timestamp.Instant, id: Id) {
    || k.at < at
    || (k.at == at && exists n ::
          0 <= n <= |k.id| && n < |id| && k.id[..n] == id[..n] && (n == |k.id| || k.id[n] < id[n]))
  }

  lemma OlderIsLess(k: Key, at: Timestamp.Instant, id: Id)
    ensures IsOlder(k, at, id) <==> Less(k, Key(at, id))
  {
    BeforeIsLexicographic(k.id, id);
  }

  lemma PageShows(t: Table, customer: Customer, cursor: Text, limit: nat, page: seq<Key>, shown: seq<Key>)
    requires Bound(cursor).Some? && IsPage(Below(t, customer, Bound(cursor).value), limit, page) && shown <= page
    ensures Shows(t, customer, cursor, limit, shown, shown == page)
  {
    hide Cursor.Decode, Less, IsOlder;
    var bound := Bound(cursor).value;
    forall k, l: Key ensures IsOlder(k, l.at, l.id) <==> Less(k, l) {
      OlderIsLess(k, l.at, l.id);
    }
    assert cursor != [] ==> bound == Some(Key(Cursor.Decode(cursor).value.0, Cursor.Decode(cursor).value.1));
    forall k | k in shown ensures k in Below(t, customer, bound) {
      var i :| 0 <= i < |shown| && shown[i] == k;
      assert page[i] == k;
    }
    forall id | id in t && t[id].customer == customer
      ensures var k := Key(t[id].createdAt, id);
              || k in shown || (bound.Some? && !Less(k, bound.value))
              || ((|shown| == limit || shown != page) && forall i | 0 <= i < |shown| :: Less(k, shown[i]))
    {
      var k := Key(t[id].createdAt, id);
      if k in page {
        var n :| 0 <= n < |page| && page[n] == k;
        assert n < |shown| ==> shown[n] == k;
      } else if bound.None? || Less(k, bound.value) {
        assert k in Below(t, customer, bound);
      }
    }
  }

  datatype Reply = Listing(orders: seq<Key>, next: Text) | BadCursor | StoreError

  class OrderLists {
    var orders: Table
    const zone: Timestamp.Instant -> int
    /** How many statements have failed, or broken off while their rows were read. */
    ghost var failures: nat

    constructor (zone: Timestamp.Instant -> int)
      ensures this.zone == zone && orders == map[] && failures == 0
    {
      this.zone, orders, failures := zone, map[], 0;
    }

    /** One exchange with the store: it may fail at any time, and is alone in that. */
    method Statement() returns (ok: bool)
      modifies this`failures
      ensures failures == old(failures) + (if ok then 0 else 1)
    {
      ok := *;
      if !ok {
        failures := failures + 1;
      }
    }

    /** The greatest key of a set. */
    method Greatest(rows: set<Key>) returns (best: Key)
      requires rows != {}
      ensures best in rows && forall k | k in rows && k != best :: Less(k, best)
    {
      best :| best in rows;
      var rest := rows - {best};
      while rest != {}
        invariant rest <= rows && best in rows && best !in rest
        invariant forall k | k in rows && k !in rest && k != best :: Less(k, best)
      {
        var k :| k in rest;
        LessIsStrict(k, best);
        if Less(best, k) {
          forall l | l in rows && l !in rest && l != best ensures Less(l, k) {
            LessTransitive(l, best, k);
          }
          best := k;
        }
        rest := rest - {k};
      }
    }

    method Query(rows: set<Key>, limit: nat) returns (page: seq<Key>)
      ensures IsPage(rows, limit, page)
    {
      page := [];
      var rest := rows;
      while rest != {} && |page| < limit
        invariant |page| <= limit && Descending(page) && rest <= rows
        invariant forall k :: k in rows <==> k in rest || k in page
        invariant forall k, i | k in rest && 0 <= i < |page| :: Less(k, page[i])
        decreases rest
      {
        var k := Greatest(rest);
        page := page + [k];
        rest := rest - {k};
      }
      forall k, i | k in rest && 0 <= i < |page| ensures k != page[i] {
        LessIsStrict(k, page[i]);
      }
    }

    /** The last order's key is always there to encode: callers pass a positive limit. Reading
        the rows may break off early (`whole` is false then) and nobody asks whether it did:
        the answer is then a proper prefix of the page that looks like the end of the list. */
    method ListByCustomer(customer: Customer, cursor: Text, limit: nat) returns (r: Reply, ghost whole: bool)
      requires Renders(zone, orders) && limit > 0
      modifies this`failures
      ensures r.BadCursor? <==> cursor != [] && Cursor.Decode(cursor).None?
      ensures r.StoreError? || !whole ==> failures > old(failures)
      ensures r.Listing? ==> Shows(orders, customer, cursor, limit, r.orders, whole)
      ensures r.Listing? && |r.orders| < limit ==> r.next == []
      ensures r.Listing? && |r.orders| == limit ==>
                r.next != [] && Cursor.Decode(r.next) == Some((r.orders[limit - 1].at, r.orders[limit - 1].id))
      ensures r.Listing? && whole ==> IsListing(zone, orders, customer, cursor, limit, r.orders, r.next)
      ensures r.Listing? && !whole ==> IsBroken(zone, orders, customer, cursor, limit, r.orders, r.next)
    {
      hide Cursor.Decode, Cursor.Encode, Cursor.Representable, Less, Descending;
      whole := true;
      var bound := None;
      if cursor != [] {
        var key := Cursor.Decode(cursor);
        if key.None? {
          r := BadCursor;
          return;
        }
        bound := Some(Key(key.value.0, key.value.1));
      }
      var ok := Statement();
      if !ok {
        r := StoreError;
        return;
      }
      var page := Query(Below(orders, customer, bound), limit);
      var result := [];
      for i := 0 to |page|
        invariant result == page[..i] && failures == old(failures)
      {
        var next := Statement();
        if !next {
          whole := false;
          break;
        }
        result := result + [page[i]];
      }
      assert page[..|page|] == page;
      var next := [];
      if |result| == limit {
        var last := result[|result| - 1];
        assert last in Below(orders, customer, bound);
        next := Cursor.Encode(last.at, zone(last.at), last.id);
        Cursor.RoundTrip(last.at, zone(last.at), last.id);
      }
      assert Bound(cursor) == Some(bound);
      PageShows(orders, customer, cursor, limit, page, result);
      if !whole {
        BrokenOff(zone, orders, customer, cursor, limit, page, result);
      }
      r := Listing(result, next);
    }

    /** Any requested limit is served: out-of-range ones as 20. */
    method ListOrders(customer: Customer, cursor: Text, limit: int) returns (r: Reply, ghost whole: bool)
      requires Renders(zone, orders)
      modifies this`failures
      ensures r.BadCursor? <==> cursor != [] && Cursor.Decode(cursor).None?
      ensures r.StoreError? || !whole ==> failures > old(failures)
      ensures r.Listing? ==>
                Shows(orders, customer, cursor, if 0 < limit <= 100 then limit else 20, r.orders, whole)
      ensures r.Listing? && whole ==>
                IsListing(zone, orders, customer, cursor, if 0 < limit <= 100 then limit else 20, r.orders, r.next)
      ensures r.Listing? && !whole ==>
                IsBroken(zone, orders, customer, cursor, if 0 < limit <= 100 then limit else 20, r.orders, r.next)
    {
      var n := limit;
      if limit <= 0 || limit > 100 {
        n := 20;
      }
      r, whole := ListByCustomer(customer, cursor, n);
    }
  }

  // ---------------------------------------------------------------------------
  // Following the cursor
  // ---------------------------------------------------------------------------

  /** Between two pages orders may be added and statuses changed; rows stay. */
  ghost predicate Grows(t: Table, t': Table) {
    forall id | id in t :: id in t' && t'[id].customer == t[id].customer && t'[id].createdAt == t[id].createdAt
  }

  /** One page of a traversal: the table as it was then, the limit asked for, the answer. */
  datatype Visit = Visit(table: Table, limit: nat, page: seq<Key>, next: Text)

  function CursorAt(visits: seq<Visit>, i: nat): Text
    requires i < |visits|
  {
    if i == 0 then [] else visits[i - 1].next
  }

  ghost predicate IsVisit(zone: Timestamp.Instant -> int, customer: Customer, visits: seq<Visit>, i: nat)
    requires i < |visits|
  {
    IsListing(zone, visits[i].table, customer, CursorAt(visits, i), visits[i].limit, visits[i].page, visits[i].next)
  }

  ghost predicate IsTraversal(zone: Timestamp.Instant -> int, customer: Customer, visits: seq<Visit>) {
    && (forall i: nat | i < |visits| :: IsVisit(zone, customer, visits, i))
    && (forall i | 0 <= i < |visits| - 1 :: visits[i].next != [])
    && (forall i | 0 <= i < |visits| - 1 :: Grows(visits[i].table, visits[i + 1].table))
  }

  /** What a listing says once cursors are read as the keys they encode. */
  lemma ListingMeans(zone: Timestamp.Instant -> int, t: Table, customer: Customer, cursor: Text, limit: nat,
                     page: seq<Key>, next: Text)
    requires IsListing(zone, t, customer, cursor, limit, page, next)
    ensures next != [] <==> |page| == limit
    ensures next != [] ==> page != [] && Bound(next) == Some(Some(page[|page| - 1]))
  {
    if |page| == limit {
      var last := page[limit - 1];
      Cursor.RoundTrip(last.at, zone(last.at), last.id);
    }
  }

  /** The bound of page i: the last key of the page before it. */
  function BoundAt(visits: seq<Visit>, i: nat): Option<Key>
    requires i < |visits|
  {
    if i == 0 || visits[i - 1].page == [] then None else Some(visits[i - 1].page[|visits[i - 1].page| - 1])
  }

  ghost predicate IsPageOf(customer: Customer, visits: seq<Visit>, i: nat)
    requires i < |visits|
  {
    && visits[i].limit > 0
    && IsPage(Below(visits[i].table, customer, BoundAt(visits, i)), visits[i].limit, visits[i].page)
    && (visits[i].next != [] <==> |visits[i].page| == visits[i].limit)
  }

  ghost predicate IsPaging(customer: Customer, visits: seq<Visit>) {
    && (forall i: nat | i < |visits| :: IsPageOf(customer, visits, i))
    && (forall i | 0 <= i < |visits| - 1 :: visits[i].next != [])
    && (forall i | 0 <= i < |visits| - 1 :: Grows(visits[i].table, visits[i + 1].table))
  }

  lemma TraversalIsPaging(zone: Timestamp.Instant -> int, customer: Customer, visits: seq<Visit>)
    requires IsTraversal(zone, customer, visits)
    ensures IsPaging(customer, visits)
  {
    forall i: nat | i < |visits| ensures IsPageOf(customer, visits, i) {
      var v := visits[i];
      assert IsVisit(zone, customer, visits, i);
      ListingMeans(zone, v.table, customer, CursorAt(visits, i), v.limit, v.page, v.next);
      if i > 0 {
        var u := visits[i - 1];
        assert IsVisit(zone, customer, visits, i - 1);
        ListingMeans(zone, u.table, customer, CursorAt(visits, i - 1), u.limit, u.page, u.next);
      }
    }
  }

  lemma {:induction false} TablesGrow(customer: Customer, visits: seq<Visit>, i: nat, j: nat)
    requires IsPaging(customer, visits) && i <= j < |visits|
    ensures Grows(visits[i].table, visits[j].table)
  {
    if i == j {
    } else {
      TablesGrow(customer, visits, i, j - 1);
    }
  }

  /** Everything returned by the first n pages. */
  function Seen(visits: seq<Visit>, n: nat): seq<Key>
    requires n <= |visits|
  {
    if n == 0 then [] else Seen(visits, n - 1) + visits[n - 1].page
  }

  /** After n pages: descending without repetition, nothing invented, and whatever the first
      table had is either seen or still below the cursor. */
  ghost predicate Progress(customer: Customer, visits: seq<Visit>, n: nat)
    requires 0 < n <= |visits|
  {
    var seen, v := Seen(visits, n), visits[n - 1];
    && Descending(seen)
    && (forall k | k in seen :: k in Below(v.table, customer, None))
    && (v.next != [] ==> v.page != [] && seen[|seen| - 1] == v.page[|v.page| - 1])
    && (forall k | k in Below(visits[0].table, customer, None) ::
          k in seen || (v.next != [] && Less(k, seen[|seen| - 1])))
  }

  lemma BelowGrows(t: Table, t': Table, customer: Customer, k: Key)
    requires Grows(t, t') && k in Below(t, customer, None)
    ensures k in Below(t', customer, None)
  {
  }

  lemma BelowBound(t: Table, customer: Customer, bound: Key, k: Key)
    ensures k in Below(t, customer, Some(bound)) <==> k in Below(t, customer, None) && Less(k, bound)
  {
  }

  /** A page entirely below what has been seen continues it. */
  lemma DescendingAppend(seen: seq<Key>, page: seq<Key>)
    requires Descending(seen) && Descending(page)
    requires seen != [] && forall i | 0 <= i < |page| :: Less(page[i], seen[|seen| - 1])
    ensures Descending(seen + page)
  {
    forall i, j | 0 <= i < |seen| && 0 <= j < |page| ensures Less(page[j], seen[i]) {
      if i < |seen| - 1 {
        LessTransitive(page[j], seen[|seen| - 1], seen[i]);
      }
    }
  }

  lemma FirstPage(customer: Customer, visits: seq<Visit>)
    requires IsPaging(customer, visits) && visits != []
    ensures Progress(customer, visits, 1)
  {
    assert IsPageOf(customer, visits, 0);
    var v := visits[0];
    var rows := Below(v.table, customer, None);
    assert BoundAt(visits, 0) == None;
    assert Seen(visits, 0) == [];
    assert Seen(visits, 1) == v.page;
    forall k | k in rows ensures k in v.page || (v.next != [] && Less(k, v.page[|v.page| - 1])) {
      if k !in v.page {
        assert |v.page| == v.limit;
      }
    }
  }

  lemma NextPage(customer: Customer, visits: seq<Visit>, n: nat)
    requires IsPaging(customer, visits) && 0 < n < |visits| && Progress(customer, visits, n)
    ensures Progress(customer, visits, n + 1)
  {
    var seen, v := Seen(visits, n), visits[n];
    assert IsPageOf(customer, visits, n - 1) && IsPageOf(customer, visits, n);
    var bound := seen[|seen| - 1];
    assert BoundAt(visits, n) == Some(bound);
    forall k
      ensures k in Below(v.table, customer, Some(bound)) <==> k in Below(v.table, customer, None) && Less(k, bound)
    {
      BelowBound(v.table, customer, bound, k);
    }
    DescendingAppend(seen, v.page);
    forall k | k in seen ensures k in Below(v.table, customer, None) {
      BelowGrows(visits[n - 1].table, v.table, customer, k);
    }
    TablesGrow(customer, visits, 0, n);
    forall k | k in Below(visits[0].table, customer, None) ensures k in Below(v.table, customer, None) {
      BelowGrows(visits[0].table, v.table, customer, k);
    }
  }

  lemma {:induction false} TraversalProgress(customer: Customer, visits: seq<Visit>, n: nat)
    requires IsPaging(customer, visits) && 0 < n <= |visits|
    ensures Progress(customer, visits, n)
  {
    if n == 1 {
      FirstPage(customer, visits);
    } else {
      TraversalProgress(customer, visits, n - 1);
      NextPage(customer, visits, n - 1);
    }
  }

  predicate ExactlyOnce(keys: seq<Key>, k: Key) {
    exists i :: 0 <= i < |keys| && keys[i] == k && forall j | 0 <= j < |keys| && keys[j] == k :: j == i
  }

  lemma DescendingOnce(keys: seq<Key>, k: Key)
    requires Descending(keys) && k in keys
    ensures ExactlyOnce(keys, k)
  {
    var i :| 0 <= i < |keys| && keys[i] == k;
    LessIsStrict(k, k);
  }

  lemma PagingIsComplete(customer: Customer, visits: seq<Visit>)
    requires IsPaging(customer, visits) && visits != [] && visits[|visits| - 1].next == []
    ensures Descending(Seen(visits, |visits|))
    ensures forall k | k in Below(visits[0].table, customer, None) :: ExactlyOnce(Seen(visits, |visits|), k)
    ensures forall k | k in Seen(visits, |visits|) :: k in Below(visits[|visits| - 1].table, customer, None)
  {
    TraversalProgress(customer, visits, |visits|);
    forall k | k in Below(visits[0].table, customer, None) ensures ExactlyOnce(Seen(visits, |visits|), k) {
      DescendingOnce(Seen(visits, |visits|), k);
    }
  }

  /** Following the encoded cursors from the empty one to the end, while the table changes,
      gives a strictly descending list that contains every order the customer had at the
      start exactly once, and nothing that is not the customer's. */
  lemma TraversalIsComplete(zone: Timestamp.Instant -> int, customer: Customer, visits: seq<Visit>)
    requires IsTraversal(zone, customer, visits) && visits != [] && visits[|visits| - 1].next == []
    ensures Descending(Seen(visits, |visits|))
    ensures forall k | k in Below(visits[0].table, customer, None) :: ExactlyOnce(Seen(visits, |visits|), k)
    ensures forall k | k in Seen(visits, |visits|) :: k in Below(visits[|visits| - 1].table, customer, None)
  {
    TraversalIsPaging(zone, customer, visits);
    PagingIsComplete(customer, visits);
  }

  // ---------------------------------------------------------------------------
  // When the last page broke off
  // ---------------------------------------------------------------------------

  ghost predicate IsBrokenVisit(zone: Timestamp.Instant -> int, customer: Customer, visits: seq<Visit>, i: nat)
    requires i < |visits|
  {
    IsBroken(zone, visits[i].table, customer, CursorAt(visits, i), visits[i].limit, visits[i].page, visits[i].next)
  }

  /** What a client sees: the last page may be a broken one, and nothing tells it so. */
  ghost predicate IsClientTraversal(zone: Timestamp.Instant -> int, customer: Customer, visits: seq<Visit>) {
    var n := |visits| - 1;
    && n >= 0
    && (IsVisit(zone, customer, visits, n) || IsBrokenVisit(zone, customer, visits, n))
    && (forall i: nat | i < n :: IsVisit(zone, customer, visits, i))
    && (forall i | 0 <= i < n :: visits[i].next != [])
    && (forall i | 0 <= i < n :: Grows(visits[i].table, visits[i + 1].table))
  }

  /** Not below the last order seen. */
  predicate Reached(seen: seq<Key>, k: Key) {
    seen != [] && !Less(k, seen[|seen| - 1])
  }

  lemma {:induction false} SeenAgrees(visits: seq<Visit>, visits': seq<Visit>, n: nat)
    requires n <= |visits| && n <= |visits'| && visits[..n] == visits'[..n]
    ensures Seen(visits, n) == Seen(visits', n)
  {
    if n == 0 {
    } else {
      assert visits[..n - 1] == visits[..n][..n - 1] == visits'[..n - 1];
      assert visits[n - 1] == visits[..n][n - 1] == visits'[n - 1];
      SeenAgrees(visits, visits', n - 1);
    }
  }

  lemma CompletedPage(zone: Timestamp.Instant -> int, t: Table, customer: Customer, cursor: Text, limit: nat,
                      page: seq<Key>)
      returns (v: Visit)
    requires IsBroken(zone, t, customer, cursor, limit, page, [])
    ensures v.table == t && v.limit == limit && page <= v.page
    ensures IsListing(zone, t, customer, cursor, limit, v.page, v.next)
  {
    hide Cursor.Encode, Cursor.Decode, Cursor.Representable;
    var whole :| IsPage(Below(t, customer, Bound(cursor).value), limit, whole) && page < whole;
    if |whole| == limit {
      assert whole[limit - 1] in Below(t, customer, Bound(cursor).value);
    }
    v := Visit(t, limit, whole, NextCursor(zone, limit, whole));
  }

  lemma BrokenEnds(zone: Timestamp.Instant -> int, customer: Customer, visits: seq<Visit>)
    requires visits != [] && IsBrokenVisit(zone, customer, visits, |visits| - 1)
    ensures visits[|visits| - 1].next == []
  {
  }

  /** The traversal as it would have been, had its last page been read whole. */
  lemma Completed(zone: Timestamp.Instant -> int, customer: Customer, visits: seq<Visit>) returns (whole: seq<Visit>)
    requires IsClientTraversal(zone, customer, visits)
    ensures IsTraversal(zone, customer, whole) && |whole| == |visits|
    ensures whole[0].table == visits[0].table && whole[|whole| - 1].table == visits[|visits| - 1].table
    ensures Seen(visits, |visits|) <= Seen(whole, |whole|)
    ensures IsVisit(zone, customer, visits, |visits| - 1) ==> whole == visits
  {
    hide IsListing, IsBroken, Grows;
    var n := |visits| - 1;
    if IsVisit(zone, customer, visits, n) {
      whole := visits;
    } else {
      BrokenEnds(zone, customer, visits);
      var v := CompletedPage(zone, visits[n].table, customer, CursorAt(visits, n), visits[n].limit, visits[n].page);
      whole := visits[..n] + [v];
      assert CursorAt(whole, n) == CursorAt(visits, n);
      forall i: nat | i < |whole| ensures IsVisit(zone, customer, whole, i) {
        if i < n {
          assert IsVisit(zone, customer, visits, i) && CursorAt(whole, i) == CursorAt(visits, i);
        }
      }
      assert whole[..n] == visits[..n];
      SeenAgrees(visits, whole, n);
    }
  }

  lemma PrefixReaches(seen: seq<Key>, full: seq<Key>, k: Key)
    requires Descending(full) && seen <= full
    requires k in full || (full != [] && Less(k, full[|full| - 1]))
    ensures k in seen <==> Reached(seen, k)
  {
    if seen == [] {
    } else {
      var last := seen[|seen| - 1];
      assert last == full[|seen| - 1];
      LessIsStrict(k, last);
      if k in full {
        var i :| 0 <= i < |full| && full[i] == k;
        assert i < |seen| ==> seen[i] == k;
        if i < |seen| - 1 {
          assert Less(last, k);
        }
        if k in seen {
          var j :| 0 <= j < |seen| && seen[j] == k;
          assert full[j] == k;
          LessIsStrict(k, k);
          assert i == j;
        }
      } else {
        assert k !in seen;
        if |seen| < |full| {
          LessTransitive(k, full[|full| - 1], last);
        }
      }
    }
  }

  lemma DescendingPrefix(seen: seq<Key>, full: seq<Key>)
    requires Descending(full) && seen <= full
    ensures Descending(seen)
    ensures forall k | k in seen :: k in full
  {
    assert forall i | 0 <= i < |seen| :: seen[i] == full[i];
  }

  /** What a client has after the last page, whether or not that was read whole: a strictly
      descending list, nothing invented, and of the orders there at the start exactly those
      not below the last one seen, each once. So the list is complete if and only if none of
      them lies below that one. */
  lemma TraversalIsExact(zone: Timestamp.Instant -> int, customer: Customer, visits: seq<Visit>)
    requires IsClientTraversal(zone, customer, visits) && visits[|visits| - 1].next == []
    ensures var seen, first := Seen(visits, |visits|), Below(visits[0].table, customer, None);
            && Descending(seen)
            && (forall k | k in seen :: k in Below(visits[|visits| - 1].table, customer, None))
            && (forall k | k in first :: if Reached(seen, k) then ExactlyOnce(seen, k) else k !in seen)
            && ((forall k | k in first :: ExactlyOnce(seen, k)) <==> (forall k | k in first :: Reached(seen, k)))
            && (IsVisit(zone, customer, visits, |visits| - 1) ==> forall k | k in first :: Reached(seen, k))
  {
    hide Below, Less, IsTraversal, IsPaging, IsListing, IsBroken, IsPage;
    var n := |visits|;
    var whole := Completed(zone, customer, visits);
    TraversalIsPaging(zone, customer, whole);
    TraversalProgress(customer, whole, n);
    var seen, full := Seen(visits, n), Seen(whole, n);
    DescendingPrefix(seen, full);
    forall k | k in Below(visits[0].table, customer, None)
      ensures k in seen <==> Reached(seen, k)
      ensures k in seen <==> ExactlyOnce(seen, k)
    {
      ReachedOnce(customer, whole, seen, k);
    }
  }

  lemma ReachedOnce(customer: Customer, whole: seq<Visit>, seen: seq<Key>, k: Key)
    requires whole != [] && Progress(customer, whole, |whole|) && k in Below(whole[0].table, customer, None)
    requires seen <= Seen(whole, |whole|) && Descending(seen)
    ensures k in seen <==> Reached(seen, k)
    ensures k in seen <==> ExactlyOnce(seen, k)
  {
    hide Below, Less;
    FullReaches(Seen(whole, |whole|), whole[|whole| - 1], k);
    PrefixReaches(seen, Seen(whole, |whole|), k);
    if k in seen {
      DescendingOnce(seen, k);
    }
  }

  /** A client can lose an order: its only page breaks off at once, and looks like the end. */
  lemma OrderCanBeLost(zone: Timestamp.Instant -> int, customer: Customer, id: Id, row: Row)
      returns (visits: seq<Visit>)
    requires row.customer == customer && Cursor.Representable(row.createdAt, zone(row.createdAt))
    ensures IsClientTraversal(zone, customer, visits) && visits[|visits| - 1].next == []
    ensures Key(row.createdAt, id) in Below(visits[0].table, customer, None)
    ensures Seen(visits, |visits|) == []
  {
    var t: Table := map[id := row];
    var key := Key(row.createdAt, id);
    assert id in t && key in Below(t, customer, None);
    assert Below(t, customer, None) == {key};
    assert IsPage({key}, 1, [key]) && [] < [key];
    BrokenOff(zone, t, customer, [], 1, [key], []);
    visits := [Visit(t, 1, [], [])];
    assert IsBrokenVisit(zone, customer, visits, 0);
    assert Seen(visits, 0) == [];
  }

  lemma FullReaches(full: seq<Key>, last: Visit, k: Key)
    requires last.next != [] ==> last.page != [] && full != []
    requires k in full || (last.next != [] && full != [] && Less(k, full[|full| - 1]))
    ensures k in full || (full != [] && Less(k, full[|full| - 1]))
  {
  }

  lemma {:induction false} DescendingFits(keys: seq<Key>, rows: set<Key>)
    requires Descending(keys) && forall k | k in keys :: k in rows
    ensures |keys| <= |rows|
  {
    if keys == [] {
    } else {
      var n := |keys| - 1;
      forall i | 0 <= i < n ensures keys[i] != keys[n] {
        LessIsStrict(keys[i], keys[n]);
      }
      forall k | k in keys[..n] ensures k in rows - {keys[n]} {
        assert k in keys;
      }
      DescendingFits(keys[..n], rows - {keys[n]});
    }
  }

  lemma {:induction false} PagesAddUp(customer: Customer, visits: seq<Visit>, n: nat)
    requires IsPaging(customer, visits) && n < |visits|
    ensures |Seen(visits, n)| >= n
  {
    if n == 0 {
    } else {
      PagesAddUp(customer, visits, n - 1);
      assert IsPageOf(customer, visits, n - 1);
    }
  }

  /** A traversal ends: it has at most one page more than the customer has orders in the
      end, so only endless arrivals below the cursor could keep it going. */
  lemma TraversalEnds(zone: Timestamp.Instant -> int, customer: Customer, visits: seq<Visit>)
    requires IsTraversal(zone, customer, visits) && visits != []
    ensures |visits| <= |Below(visits[|visits| - 1].table, customer, None)| + 1
  {
    var n := |visits|;
    TraversalIsPaging(zone, customer, visits);
    TraversalProgress(customer, visits, n);
    PagesAddUp(customer, visits, n - 1);
    DescendingFits(Seen(visits, n), Below(visits[n - 1].table, customer, None));
  }
}
