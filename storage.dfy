/** The in-memory store `MemStorage` of server/storage.ts: one id-keyed map per table and one
    id counter per table. Each create takes the counter's value as the new id and then
    increments the counter; lookups, filters and searches read the maps in iteration order
    (see IdOrder). Recipes, categories, eco swaps and garden progress are not part of this
    model. */
module Storage {
  import opened Common
  import opened IdOrder
  import opened Schema

  // ---------------------------------------------------------------------------------------
  // Text search

  /** `String.prototype.toLowerCase` on one character (ASCII letters only). */
  function LowerChar(c: char): (r: char)
    ensures 'A' <= c <= 'Z' ==> 'a' <= r <= 'z' && r as int - c as int == 'a' as int - 'A' as int
    ensures !('A' <= c <= 'Z') ==> r == c
    ensures !('A' <= r <= 'Z')
  {
    if 'A' <= c <= 'Z' then (c as int - 'A' as int + 'a' as int) as char else c
  }

  function Lower(s: string): (r: string)
    ensures |r| == |s|
    ensures forall i :: 0 <= i < |s| ==> r[i] == LowerChar(s[i])
  {
    seq(|s|, i requires 0 <= i < |s| => LowerChar(s[i]))
  }

  /** Lower-casing twice is lower-casing once. */
  lemma LowerIdempotent(s: string)
    ensures Lower(Lower(s)) == Lower(s)
  {
    assert forall i :: 0 <= i < |s| ==> LowerChar(LowerChar(s[i])) == LowerChar(s[i]);
  }

  predicate OccursAt(s: string, sub: string, i: int)
  {
    0 <= i && i + |sub| <= |s| && s[i..i + |sub|] == sub
  }

  /** `s.includes(sub)`: `sub` is a prefix of some suffix of `s`; the empty string is
      included in every string, and nothing longer than `s` is. */
  predicate Contains(s: string, sub: string): (b: bool)
    ensures b <==> exists i | 0 <= i <= |s| :: sub <= s[i..]
    ensures sub == [] ==> b
    ensures b ==> |sub| <= |s|
  {
    assert forall i | 0 <= i <= |s| :: OccursAt(s, sub, i) <==> sub <= s[i..];
    assert sub == [] ==> OccursAt(s, sub, 0);
    exists i | 0 <= i <= |s| - |sub| :: OccursAt(s, sub, i)
  }

  /** The test of `searchProducts`: the lower-cased query occurs in the lower-cased name or
      the lower-cased description. */
  predicate MatchesQuery(p: Product, query: string): (b: bool)
    ensures query == [] ==> b
    ensures b ==> |query| <= |p.name| || |query| <= |p.description|
  {
    Contains(Lower(p.name), Lower(query)) || Contains(Lower(p.description), Lower(query))
  }

  // ---------------------------------------------------------------------------------------
  // Users: the eco-point award of updateUserEcoPoints

  /** A user after `points` eco-points are added: when both ecoPoints and gardenLevel are
      set, ecoPoints grows by `points` and the garden level rises by one exactly when the
      new total reaches 200 times the old level; a user with either field null is left as
      it is. Nothing else changes. */
  function AwardPoints(u: User, points: int): (r: User)
    ensures r.(ecoPoints := u.ecoPoints, gardenLevel := u.gardenLevel) == u
    ensures u.ecoPoints.None? || u.gardenLevel.None? ==> r == u
    ensures u.ecoPoints.Some? && u.gardenLevel.Some? ==>
              && r.ecoPoints == Some(u.ecoPoints.value + points)
              && r.gardenLevel.Some?
              && (r.gardenLevel.value == u.gardenLevel.value + 1 <==> u.ecoPoints.value + points >= u.gardenLevel.value * 200)
              && (r.gardenLevel.value == u.gardenLevel.value || r.gardenLevel.value == u.gardenLevel.value + 1)
  {
    if u.ecoPoints.Some? && u.gardenLevel.Some? then
      var points' := u.ecoPoints.value + points;
      var level := if points' >= u.gardenLevel.value * 200 then u.gardenLevel.value + 1 else u.gardenLevel.value;
      u.(ecoPoints := Some(points'), gardenLevel := Some(level))
    else u
  }

  // ---------------------------------------------------------------------------------------
  // Orders: newest first

  predicate NewestFirst(s: seq<Order>)
  {
    forall i, j :: 0 <= i < j < |s| ==> s[i].orderDate >= s[j].orderDate
  }

  /** Puts `o` in front of the first order that is not strictly newer than it. */
  function InsertByDate(o: Order, s: seq<Order>): (r: seq<Order>)
    requires NewestFirst(s)
    ensures NewestFirst(r)
    ensures multiset(r) == multiset(s) + multiset{o}
  {
    if s == [] || s[0].orderDate <= o.orderDate then
      PrependNewest(o, s);
      [o] + s
    else
      var rest := InsertByDate(o, s[1..]);
      assert s == [s[0]] + s[1..];
      NoneNewerThan(rest, s[1..], o, s[0].orderDate);
      PrependNewest(s[0], rest);
      [s[0]] + rest
  }

  /** An order at least as new as every order of a newest-first list can go in front. */
  lemma PrependNewest(x: Order, s: seq<Order>)
    requires NewestFirst(s)
    requires forall i :: 0 <= i < |s| ==> s[i].orderDate <= x.orderDate
    ensures NewestFirst([x] + s)
  {
    var r := [x] + s;
    forall i, j | 0 <= i < j < |r| ensures r[i].orderDate >= r[j].orderDate {
      assert r[j] == s[j - 1];
      if i > 0 { assert r[i] == s[i - 1]; }
    }
  }

  /** If neither `o` nor any order of `s` is newer than `d`, neither is any order of a
      rearrangement of them. */
  lemma NoneNewerThan(r: seq<Order>, s: seq<Order>, o: Order, d: int)
    requires multiset(r) == multiset(s) + multiset{o}
    requires o.orderDate <= d && forall i :: 0 <= i < |s| ==> s[i].orderDate <= d
    ensures forall i :: 0 <= i < |r| ==> r[i].orderDate <= d
  {
    forall i | 0 <= i < |r| ensures r[i].orderDate <= d {
      assert r[i] in multiset(r);
      if r[i] != o {
        assert r[i] in multiset(s);
        var j :| 0 <= j < |s| && s[j] == r[i];
      }
    }
  }

  /** `orders.sort((a, b) => date(b) - date(a))`: the same orders, newest first. */
  function SortNewestFirst(s: seq<Order>): (r: seq<Order>)
    ensures NewestFirst(r)
    ensures multiset(r) == multiset(s)
  {
    if s == [] then []
    else
      assert s == [s[0]] + s[1..];
      InsertByDate(s[0], SortNewestFirst(s[1..]))
  }

  /** Orders with the same date appear in ascending id order. */
  predicate TiesById(s: seq<Order>)
  {
    forall i, j :: 0 <= i < j < |s| && s[i].orderDate == s[j].orderDate ==> s[i].id < s[j].id
  }

  /** Inserting an order whose id is below every id of the list keeps equal dates in
      ascending id order: it goes in front of the orders of its own date. */
  lemma {:induction false} InsertKeepsTies(o: Order, s: seq<Order>)
    requires NewestFirst(s) && TiesById(s)
    requires forall i :: 0 <= i < |s| ==> o.id < s[i].id
    ensures TiesById(InsertByDate(o, s))
  {
    if s == [] || s[0].orderDate <= o.orderDate {
      PrependKeepsTies(o, s);
    } else {
      var rest := InsertByDate(o, s[1..]);
      InsertKeepsTies(o, s[1..]);
      assert s == [s[0]] + s[1..];
      TiesAfterHead(o, s, rest);
      PrependKeepsTies(s[0], rest);
    }
  }

  /** An order whose id is below every later order of its own date can go in front. */
  lemma PrependKeepsTies(x: Order, s: seq<Order>)
    requires TiesById(s)
    requires forall j :: 0 <= j < |s| && s[j].orderDate == x.orderDate ==> x.id < s[j].id
    ensures TiesById([x] + s)
  {
    var r := [x] + s;
    forall i, j | 0 <= i < j < |r| && r[i].orderDate == r[j].orderDate ensures r[i].id < r[j].id {
      assert r[j] == s[j - 1];
      if i > 0 { assert r[i] == s[i - 1]; }
    }
  }

  /** Every order of `rest`, a rearrangement of `o` and the tail of `s`, dated like the head
      of `s` has a larger id than the head, when `o` is strictly older than the head. */
  lemma TiesAfterHead(o: Order, s: seq<Order>, rest: seq<Order>)
    requires s != [] && TiesById(s) && o.orderDate < s[0].orderDate
    requires multiset(rest) == multiset(s[1..]) + multiset{o}
    ensures forall j :: 0 <= j < |rest| && rest[j].orderDate == s[0].orderDate ==> s[0].id < rest[j].id
  {
    forall j | 0 <= j < |rest| && rest[j].orderDate == s[0].orderDate ensures s[0].id < rest[j].id {
      assert rest[j] in multiset(rest);
      assert rest[j] != o;
      assert rest[j] in multiset(s[1..]);
      var k :| 0 <= k < |s[1..]| && s[1..][k] == rest[j];
      assert s[k + 1] == rest[j];
    }
  }

  /** The sort is stable on a list in ascending id order: orders of the same date keep
      ascending id order. */
  lemma {:induction false} SortKeepsTies(s: seq<Order>)
    requires forall i, j :: 0 <= i < j < |s| ==> s[i].id < s[j].id
    ensures TiesById(SortNewestFirst(s))
  {
    if s != [] {
      var sorted := SortNewestFirst(s[1..]);
      SortKeepsTies(s[1..]);
      forall i | 0 <= i < |sorted| ensures s[0].id < sorted[i].id {
        assert sorted[i] in multiset(s[1..]) by {
          assert sorted[i] in multiset(sorted);
        }
        var k :| 0 <= k < |s[1..]| && s[1..][k] == sorted[i];
        assert s[k + 1] == sorted[i];
      }
      InsertKeepsTies(s[0], sorted);
    }
  }

  /** Two lists with the same multiset have the same members. */
  lemma SameMembers<T>(a: seq<T>, b: seq<T>)
    requires multiset(a) == multiset(b)
    ensures forall x :: x in a <==> x in b
  {
    forall x ensures x in a <==> x in b {
      assert x in a <==> x in multiset(a);
      assert x in b <==> x in multiset(b);
    }
  }

  /** A cart row joined with its product (`undefined` when the product is missing). */
  datatype CartLine = CartLine(item: CartItem, product: Option<Product>)

  /** `products.get(item.productId!)` */
  function ProductOf(products: map<int, Product>, item: CartItem): (r: Option<Product>)
    ensures r.Some? <==> item.productId.Some? && item.productId.value in products
    ensures r.Some? ==> r.value == products[item.productId.value]
  {
    if item.productId.Some? && item.productId.value in products then Some(products[item.productId.value]) else None
  }

  function JoinProducts(rows: seq<CartItem>, products: map<int, Product>): (r: seq<CartLine>)
    ensures |r| == |rows|
    ensures forall i :: 0 <= i < |r| ==> r[i] == CartLine(rows[i], ProductOf(products, rows[i]))
    ensures Items(r) == rows
  {
    seq(|rows|, i requires 0 <= i < |rows| => CartLine(rows[i], ProductOf(products, rows[i])))
  }

  function Items(lines: seq<CartLine>): (r: seq<CartItem>)
    ensures |r| == |lines| && forall i :: 0 <= i < |lines| ==> r[i] == lines[i].item
    ensures lines != [] ==> lines[0].item in r
  {
    seq(|lines|, i requires 0 <= i < |lines| => lines[i].item)
  }

  /** `ids.forEach(id => m.delete(id))`: no key is added and every id of `ids` is gone. */
  function RemoveAll<T>(m: map<int, T>, ids: seq<int>): (r: map<int, T>)
    ensures r.Keys <= m.Keys
    ensures forall k :: k in ids ==> k !in r
  {
    if ids == [] then m
    else
      assert forall k :: k in ids ==> k == ids[0] || k in ids[1..];
      RemoveAll(m - {ids[0]}, ids[1..])
  }

  /** Exactly the keys not in `ids` remain, with their values. */
  lemma {:induction false} RemoveAllLeaves<T>(m: map<int, T>, ids: seq<int>)
    ensures forall k :: k in RemoveAll(m, ids) <==> k in m && k !in ids
    ensures forall k :: k in RemoveAll(m, ids) ==> RemoveAll(m, ids)[k] == m[k]
  {
    if ids != [] {
      RemoveAllLeaves(m - {ids[0]}, ids[1..]);
      assert forall k :: k in ids <==> k == ids[0] || k in ids[1..];
    }
  }

  /** The cart invariant: every row under its own id, ids in [1, next), one row per line. */
  ghost predicate CartInvariant(cart: map<int, CartItem>, next: int)
  {
    && 1 <= next && KeysBelow(cart, next) && (forall k :: k in cart ==> cart[k].id == k)
    && OneRowPerLine(cart)
  }

  /** What `addToCart` returns and leaves behind. */
  datatype CartAddition = CartAddition(item: CartItem, cart: map<int, CartItem>, next: int)

  /** The effect of `addToCart`: the row of that user and product now holds the old quantity
      (none: 0) plus the added one; it is the old row, under its old id, when there was one,
      and otherwise a new row under the id `next`, which the counter then passes. No other
      row changes, and the cart invariant is kept. */
  function CartWithAdded(cart: map<int, CartItem>, next: int, ins: NewCartItem): (r: CartAddition)
    requires CartInvariant(cart, next)
    ensures var row := CartRowFor(cart, next, ins.userId, ins.productId);
            && r.item.userId == ins.userId && r.item.productId == ins.productId
            && r.item.quantity == (if row.Some? then row.value.quantity else 0) + ins.quantity
            && (row.Some? ==> r.item.id == row.value.id && r.next == next)
            && (row.None? ==> r.item.id == next && next !in cart && r.next == next + 1)
    ensures r.cart == cart[r.item.id := r.item]
    ensures CartInvariant(r.cart, r.next)
  {
    var row := CartRowFor(cart, next, ins.userId, ins.productId);
    if row.Some? then MergedRow(cart, next, row.value, ins.quantity)
    else NewRow(cart, next, ins)
  }

  /** Adding to the quantity of an existing row. */
  function MergedRow(cart: map<int, CartItem>, next: int, row: CartItem, added: int): (r: CartAddition)
    requires CartInvariant(cart, next) && row.id in cart && cart[row.id] == row
    ensures r.item == row.(quantity := row.quantity + added)
    ensures r.cart == cart[row.id := r.item] && r.next == next
    ensures CartInvariant(r.cart, r.next)
  {
    var item := row.(quantity := row.quantity + added);
    ReplaceKeepsOneRow(cart, row.id, item);
    CartAddition(item, cart[row.id := item], next)
  }

  /** Storing a new row under the id `next` when the user has none for that product. */
  function NewRow(cart: map<int, CartItem>, next: int, ins: NewCartItem): (r: CartAddition)
    requires CartInvariant(cart, next)
    requires forall k :: k in cart ==> !(cart[k].userId == ins.userId && cart[k].productId == ins.productId)
    ensures r.item == CartItem(next, ins.userId, ins.productId, ins.quantity) && next !in cart
    ensures r.cart == cart[next := r.item] && r.next == next + 1
    ensures CartInvariant(r.cart, r.next)
  {
    var item := CartItem(next, ins.userId, ins.productId, ins.quantity);
    InsertKeepsOneRow(cart, item);
    CartAddition(item, cart[next := item], next + 1)
  }

  /** The effect of `clearCart`: no row of the user is left, every other row is untouched,
      and nothing is added. */
  function WithoutUserRows(cart: map<int, CartItem>, userId: int): (r: map<int, CartItem>)
    ensures forall k :: k in r ==> r[k].userId != Some(userId)
    ensures forall k :: k in cart && cart[k].userId != Some(userId) ==> k in r && r[k] == cart[k]
    ensures forall k :: k in r ==> k in cart && r[k] == cart[k]
  {
    map k | k in cart && cart[k].userId != Some(userId) :: cart[k]
  }

  /** Deleting, one by one, the ids `clearCart` selects is `WithoutUserRows`, and keeps the
      cart invariant. */
  lemma UserRowsRemoved(m: map<int, CartItem>, next: int, userId: int)
    requires CartInvariant(m, next)
    ensures RemoveAll(m, SelectIds(m, next, OfUser(userId))) == WithoutUserRows(m, userId)
    ensures CartInvariant(WithoutUserRows(m, userId), next)
  {
    var doomed := SelectIds(m, next, OfUser(userId));
    assert forall k :: k in doomed <==> k in m && m[k].userId == Some(userId);
    RemovingUserIds(m, doomed, userId);
    SubCartKeepsInvariant(m, WithoutUserRows(m, userId), next);
  }

  /** Deleting exactly the ids of the user's rows leaves `WithoutUserRows`. */
  lemma RemovingUserIds(m: map<int, CartItem>, doomed: seq<int>, userId: int)
    requires forall k :: k in doomed <==> k in m && m[k].userId == Some(userId)
    ensures RemoveAll(m, doomed) == WithoutUserRows(m, userId)
  {
    RemoveAllLeaves(m, doomed);
    var r, w := RemoveAll(m, doomed), WithoutUserRows(m, userId);
    forall k ensures k in r <==> k in w {
      assert k in w <==> k in m && m[k].userId != Some(userId);
    }
    assert r.Keys == w.Keys;
    forall k | k in r ensures r[k] == w[k] {
      assert k in m && m[k].userId != Some(userId);
    }
    assert r == w;
  }

  /** Deleting rows keeps the cart invariant. */
  lemma SubCartKeepsInvariant(cart: map<int, CartItem>, cart': map<int, CartItem>, next: int)
    requires CartInvariant(cart, next)
    requires forall k :: k in cart' ==> k in cart && cart'[k] == cart[k]
    ensures CartInvariant(cart', next)
  {
    SubCartKeepsOneRow(cart, cart');
  }

  /** Inserting a row for a (user, product) that has none keeps one row per line. */
  lemma InsertKeepsOneRow(cart: map<int, CartItem>, item: CartItem)
    requires OneRowPerLine(cart) && item.id !in cart
    requires forall k :: k in cart ==> !(cart[k].userId == item.userId && cart[k].productId == item.productId)
    ensures OneRowPerLine(cart[item.id := item])
    ensures |cart[item.id := item]| == |cart| + 1
  {
  }

  /** Replacing a row by one of the same (user, product) keeps one row per line. */
  lemma ReplaceKeepsOneRow(cart: map<int, CartItem>, k: int, item: CartItem)
    requires OneRowPerLine(cart) && k in cart
    requires item.userId == cart[k].userId && item.productId == cart[k].productId
    ensures OneRowPerLine(cart[k := item])
    ensures |cart[k := item]| == |cart|
  {
    assert cart[k := item].Keys == cart.Keys;
  }

  /** Deleting rows keeps one row per line. */
  lemma SubCartKeepsOneRow(cart: map<int, CartItem>, cart': map<int, CartItem>)
    requires OneRowPerLine(cart)
    requires forall k :: k in cart' ==> k in cart && cart'[k] == cart[k]
    ensures OneRowPerLine(cart')
  {
  }

  function CartItemId(c: CartItem): int { c.id }

  /** The test of `getCartItems` and `clearCart`: the row belongs to the user. */
  function OfUser(userId: int): CartItem -> bool
  {
    (c: CartItem) => c.userId == Some(userId)
  }

  /** The test of `addToCart`'s search for an existing row. */
  function SameLine(userId: Option<int>, productId: Option<int>): CartItem -> bool
  {
    (c: CartItem) => c.userId == userId && c.productId == productId
  }

  /** The row `addToCart` merges into: the first row of the same user and product, in
      iteration order. */
  function CartRowFor(cart: map<int, CartItem>, next: int, userId: Option<int>, productId: Option<int>): (r: Option<CartItem>)
    requires KeysBelow(cart, next)
    requires forall k :: k in cart ==> cart[k].id == k
    ensures r.None? <==> forall k :: k in cart ==> !(cart[k].userId == userId && cart[k].productId == productId)
    ensures r.Some? ==> r.value.id in cart && cart[r.value.id] == r.value
    ensures r.Some? ==> r.value.userId == userId && r.value.productId == productId
    ensures r.Some? ==> forall k :: k in cart && cart[k].userId == userId && cart[k].productId == productId ==> r.value.id <= k
  {
    Find(cart, next, SameLine(userId, productId), CartItemId)
  }

  function OrderId(o: Order): int { o.id }

  /** The test of `getUserOrders`: the order belongs to the user. */
  function OrderOfUser(userId: int): Order -> bool
  {
    (o: Order) => o.userId == Some(userId)
  }

  /** At most one row per (user, product). */
  ghost predicate OneRowPerLine(cart: map<int, CartItem>)
  {
    forall a, b :: a in cart && b in cart && a != b ==>
      cart[a].userId != cart[b].userId || cart[a].productId != cart[b].productId
  }

  class MemStorage {
    var users: map<int, User>
    var products: map<int, Product>
    var cartItems: map<int, CartItem>
    var notifications: map<int, Notification>
    var orders: map<int, Order>
    var currentUserId: int
    var currentProductId: int
    var currentCartId: int
    var currentNotificationId: int
    var currentOrderId: int

    /** Every record sits under its own id and every id is below its table's counter, which
        starts at 1; the cart also holds at most one row per (user, product). One predicate
        per table, each reading only that table and its counter. */
    ghost predicate UsersValid()
      reads this`users, this`currentUserId
    {
      1 <= currentUserId && KeysBelow(users, currentUserId) && forall k :: k in users ==> users[k].id == k
    }

    ghost predicate ProductsValid()
      reads this`products, this`currentProductId
    {
      1 <= currentProductId && KeysBelow(products, currentProductId) && forall k :: k in products ==> products[k].id == k
    }

    ghost predicate CartValid()
      reads this`cartItems, this`currentCartId
    {
      CartInvariant(cartItems, currentCartId)
    }

    ghost predicate NotificationsValid()
      reads this`notifications, this`currentNotificationId
    {
      && 1 <= currentNotificationId && KeysBelow(notifications, currentNotificationId)
      && forall k :: k in notifications ==> notifications[k].id == k
    }

    ghost predicate OrdersValid()
      reads this`orders, this`currentOrderId
    {
      1 <= currentOrderId && KeysBelow(orders, currentOrderId) && forall k :: k in orders ==> orders[k].id == k
    }

    /** The whole store's invariant: in particular every counter names a free id, and the
        cart holds at most one row per (user, product). */
    ghost predicate Valid(): (b: bool)
      reads this
      ensures b ==> && currentUserId !in users && currentProductId !in products
                    && currentCartId !in cartItems && currentNotificationId !in notifications
                    && currentOrderId !in orders
      ensures b ==> OneRowPerLine(cartItems)
      ensures b ==> forall k :: k in cartItems ==> cartItems[k].id == k
    {
      UsersValid() && ProductsValid() && CartValid() && NotificationsValid() && OrdersValid()
    }

    /** An empty store whose counters all start at 1 (the demo seed data is not modelled). */
    constructor ()
      ensures Valid()
      ensures users == map[] && products == map[] && cartItems == map[] && notifications == map[] && orders == map[]
      ensures currentUserId == 1 && currentProductId == 1 && currentCartId == 1
      ensures currentNotificationId == 1 && currentOrderId == 1
    {
      users, products, cartItems, notifications, orders := map[], map[], map[], map[], map[];
      currentUserId, currentProductId, currentCartId := 1, 1, 1;
      currentNotificationId, currentOrderId := 1, 1;
    }

    // ---- users ---------------------------------------------------------------------------

    function GetUser(id: int): (r: Option<User>)
      reads this
      ensures r.Some? <==> id in users
      ensures r.Some? ==> r.value == users[id]
    {
      if id in users then Some(users[id]) else None
    }

    /** The first user, in iteration order, with that user name. */
    function GetUserByUsername(username: string): (r: Option<User>)
      reads this
      requires Valid()
      ensures r.None? <==> forall k :: k in users ==> users[k].username != username
      ensures r.Some? ==> r.value in users.Values && r.value.username == username
      ensures r.Some? ==> forall k :: k in users && users[k].username == username ==> r.value.id <= k
    {
      Find(users, currentUserId, (u: User) => u.username == username, (u: User) => u.id)
    }

    method CreateUser(nu: NewUser) returns (u: User)
      requires Valid()
      modifies this`users, this`currentUserId
      ensures Valid()
      ensures u == User(old(currentUserId), nu.username, nu.password, nu.email, nu.budget,
                        Some(0), Some(1), Some("0.00"), None, None, None, None)
      ensures users == old(users)[u.id := u] && u.id !in old(users)
      ensures currentUserId == old(currentUserId) + 1
    {
      u := User(currentUserId, nu.username, nu.password, nu.email, nu.budget,
                Some(0), Some(1), Some("0.00"), None, None, None, None);
      currentUserId := currentUserId + 1;
      users := users[u.id := u];
    }

    method UpdateUserBudget(userId: int, budget: string) returns (r: Option<User>)
      requires Valid()
      modifies this`users
      ensures Valid()
      ensures r.Some? <==> userId in old(users)
      ensures r.Some? ==> r.value == old(users)[userId].(budget := Some(budget)) && users == old(users)[userId := r.value]
      ensures r.None? ==> users == old(users)
    {
      if userId in users {
        var user := users[userId].(budget := Some(budget));
        users := users[userId := user];
        r := Some(user);
      } else {
        r := None;
      }
    }

    method UpdateUserEcoPoints(userId: int, points: int) returns (r: Option<User>)
      requires Valid()
      modifies this`users
      ensures Valid()
      ensures r.Some? <==> userId in old(users)
      ensures r.Some? ==> r.value == AwardPoints(old(users)[userId], points) && users == old(users)[userId := r.value]
      ensures r.None? ==> users == old(users)
    {
      if userId in users {
        var user := AwardPoints(users[userId], points);
        users := users[userId := user];
        r := Some(user);
      } else {
        r := None;
      }
    }

    // ---- products ------------------------------------------------------------------------

    function GetProducts(): (r: seq<Product>)
      reads this
      requires Valid()
      ensures forall p :: p in r <==> p in products.Values
      ensures forall i, j :: 0 <= i < j < |r| ==> r[i].id < r[j].id
    {
      Select(products, currentProductId, (p: Product) => true, (p: Product) => p.id)
    }

    function GetProduct(id: int): (r: Option<Product>)
      reads this
      ensures r.Some? <==> id in products
      ensures r.Some? ==> r.value == products[id]
    {
      if id in products then Some(products[id]) else None
    }

    /** Exactly the products of that category, in iteration order. */
    function GetProductsByCategory(categoryId: int): (r: seq<Product>)
      reads this
      requires Valid()
      ensures forall p :: p in r <==> p in products.Values && p.categoryId == Some(categoryId)
      ensures forall i, j :: 0 <= i < j < |r| ==> r[i].id < r[j].id
    {
      Select(products, currentProductId, (p: Product) => p.categoryId == Some(categoryId), (p: Product) => p.id)
    }

    /** Exactly the products whose lower-cased name or description contains the lower-cased
        query, in iteration order. */
    function SearchProducts(query: string): (r: seq<Product>)
      reads this
      requires Valid()
      ensures forall p :: p in r <==> p in products.Values && MatchesQuery(p, query)
      ensures forall i, j :: 0 <= i < j < |r| ==> r[i].id < r[j].id
    {
      Select(products, currentProductId, (p: Product) => MatchesQuery(p, query), (p: Product) => p.id)
    }

    method CreateProduct(np: NewProduct) returns (p: Product)
      requires Valid()
      modifies this`products, this`currentProductId
      ensures Valid()
      ensures p == Product(old(currentProductId), np.name, np.description, np.categoryId, np.stock,
                           np.isOrganic, np.isLocal, np.details)
      ensures products == old(products)[p.id := p] && p.id !in old(products)
      ensures currentProductId == old(currentProductId) + 1
    {
      p := Product(currentProductId, np.name, np.description, np.categoryId, np.stock,
                   np.isOrganic, np.isLocal, np.details);
      currentProductId := currentProductId + 1;
      products := products[p.id := p];
    }

    method UpdateProductStock(productId: int, stock: int) returns (r: Option<Product>)
      requires Valid()
      modifies this`products
      ensures Valid()
      ensures r.Some? <==> productId in old(products)
      ensures r.Some? ==> r.value == old(products)[productId].(stock := stock) && products == old(products)[productId := r.value]
      ensures r.None? ==> products == old(products)
    {
      if productId in products {
        var product := products[productId].(stock := stock);
        products := products[productId := product];
        r := Some(product);
      } else {
        r := None;
      }
    }

    // ---- cart ----------------------------------------------------------------------------

    /** The user's rows in iteration order, each with its product looked up. */
    function GetCartItems(userId: int): (r: seq<CartLine>)
      reads this
      requires Valid()
      ensures forall c :: c in Items(r) <==> c in cartItems.Values && c.userId == Some(userId)
      ensures forall i, j :: 0 <= i < j < |r| ==> r[i].item.id < r[j].item.id
      ensures forall i :: 0 <= i < |r| ==> r[i].product == ProductOf(products, r[i].item)
    {
      JoinProducts(Select(cartItems, currentCartId, OfUser(userId), CartItemId), products)
    }

    /** Adds to the existing row of the same user and product, or else inserts a row under
        the next cart id. */
    method AddToCart(ins: NewCartItem) returns (item: CartItem)
      requires Valid()
      modifies this`cartItems, this`currentCartId
      ensures Valid()
      ensures CartAddition(item, cartItems, currentCartId) == CartWithAdded(old(cartItems), old(currentCartId), ins)
    {
      ghost var expected := CartWithAdded(cartItems, currentCartId, ins);
      var existing := CartRowFor(cartItems, currentCartId, ins.userId, ins.productId);
      if existing.Some? {
        item := existing.value.(quantity := existing.value.quantity + ins.quantity);
        cartItems := cartItems[item.id := item];
      } else {
        item := CartItem(currentCartId, ins.userId, ins.productId, ins.quantity);
        currentCartId := currentCartId + 1;
        cartItems := cartItems[item.id := item];
      }
    }

    method UpdateCartItem(id: int, quantity: int) returns (r: Option<CartItem>)
      requires Valid()
      modifies this`cartItems
      ensures Valid()
      ensures r.Some? <==> id in old(cartItems)
      ensures r.Some? ==> r.value == old(cartItems)[id].(quantity := quantity) && cartItems == old(cartItems)[id := r.value]
      ensures r.None? ==> cartItems == old(cartItems)
    {
      if id in cartItems {
        var item := cartItems[id].(quantity := quantity);
        cartItems := cartItems[id := item];
        r := Some(item);
      } else {
        r := None;
      }
    }

    /** `Map.prototype.delete`: true when the row was there. */
    method RemoveFromCart(id: int) returns (removed: bool)
      requires Valid()
      modifies this`cartItems
      ensures Valid()
      ensures removed <==> id in old(cartItems)
      ensures cartItems == old(cartItems) - {id}
    {
      removed := id in cartItems;
      cartItems := cartItems - {id};
    }

    /** Deletes, one by one, every row of the user; always reports success. */
    method ClearCart(userId: int) returns (ok: bool)
      requires Valid()
      modifies this`cartItems
      ensures Valid()
      ensures ok
      ensures cartItems == WithoutUserRows(old(cartItems), userId)
    {
      var m := cartItems;
      var doomed := SelectIds(m, currentCartId, OfUser(userId));
      var i := 0;
      while i < |doomed|
        invariant 0 <= i <= |doomed|
        invariant RemoveAll(cartItems, doomed[i..]) == RemoveAll(m, doomed)
      {
        cartItems := cartItems - {doomed[i]};
        i := i + 1;
      }
      assert cartItems == RemoveAll(m, doomed) by {
        assert doomed[i..] == [];
      }
      UserRowsRemoved(m, currentCartId, userId);
      assert CartValid();
      ok := true;
    }

    // ---- notifications -------------------------------------------------------------------

    function GetUserNotifications(userId: int): (r: seq<Notification>)
      reads this
      requires Valid()
      ensures forall n :: n in r <==> n in notifications.Values && n.userId == Some(userId)
      ensures forall i, j :: 0 <= i < j < |r| ==> r[i].id < r[j].id
    {
      Select(notifications, currentNotificationId, (n: Notification) => n.userId == Some(userId), (n: Notification) => n.id)
    }

    /** `now` stands for the clock reading the source takes for `createdAt`. */
    method CreateNotification(nn: NewNotification, now: int) returns (n: Notification)
      requires Valid()
      modifies this`notifications, this`currentNotificationId
      ensures Valid()
      ensures n == Notification(old(currentNotificationId), nn.userId, nn.kind, nn.title, nn.message, nn.isRead, now)
      ensures notifications == old(notifications)[n.id := n] && n.id !in old(notifications)
      ensures currentNotificationId == old(currentNotificationId) + 1
    {
      n := Notification(currentNotificationId, nn.userId, nn.kind, nn.title, nn.message, nn.isRead, now);
      currentNotificationId := currentNotificationId + 1;
      notifications := notifications[n.id := n];
    }

    method MarkNotificationRead(id: int) returns (found: bool)
      requires Valid()
      modifies this`notifications
      ensures Valid()
      ensures found <==> id in old(notifications)
      ensures found ==> notifications == old(notifications)[id := old(notifications)[id].(isRead := Some(true))]
      ensures !found ==> notifications == old(notifications)
    {
      if id in notifications {
        notifications := notifications[id := notifications[id].(isRead := Some(true))];
        found := true;
      } else {
        found := false;
      }
    }

    // ---- orders --------------------------------------------------------------------------

    /** The user's orders, newest first. */
    function GetUserOrders(userId: int): (r: seq<Order>)
      reads this
      requires Valid()
      ensures forall o :: o in r <==> o in orders.Values && o.userId == Some(userId)
      ensures NewestFirst(r)
      ensures TiesById(r)
      ensures multiset(r) == multiset(Select(orders, currentOrderId, OrderOfUser(userId), OrderId))
    {
      var mine := Select(orders, currentOrderId, OrderOfUser(userId), OrderId);
      var r := SortNewestFirst(mine);
      SameMembers(r, mine);
      SortKeepsTies(mine);
      r
    }

    /** `now` stands for the clock reading the source takes for `orderDate`. */
    method CreateOrder(no: NewOrder, now: int) returns (o: Order)
      requires Valid()
      modifies this`orders, this`currentOrderId
      ensures Valid()
      ensures o == Order(old(currentOrderId), no.userId, no.total, no.status, now, no.items)
      ensures orders == old(orders)[o.id := o] && o.id !in old(orders)
      ensures currentOrderId == old(currentOrderId) + 1
    {
      o := Order(currentOrderId, no.userId, no.total, no.status, now, no.items);
      currentOrderId := currentOrderId + 1;
      orders := orders[o.id := o];
    }
  }

  // ---------------------------------------------------------------------------------------
  // Properties of the queries

  /** Searching is insensitive to the case of the query. */
  lemma SearchIgnoresQueryCase(s: MemStorage, query: string)
    requires s.Valid()
    ensures s.SearchProducts(query) == s.SearchProducts(Lower(query))
  {
    LowerIdempotent(query);
    SelectCongruent(s.products, s.currentProductId,
      (p: Product) => MatchesQuery(p, query), (p: Product) => MatchesQuery(p, Lower(query)), (p: Product) => p.id);
  }

  /** The empty query occurs in every text, so searching for it lists every product. */
  lemma EmptySearchListsAll(s: MemStorage)
    requires s.Valid()
    ensures s.SearchProducts("") == s.GetProducts()
  {
    forall p: Product ensures MatchesQuery(p, "") {
      assert OccursAt(Lower(p.name), Lower(""), 0);
    }
    SelectCongruent(s.products, s.currentProductId,
      (p: Product) => MatchesQuery(p, ""), (p: Product) => true, (p: Product) => p.id);
  }

  /** The level-up is a single step: a large award from level 1 stops at level 2 although
      the new total would qualify for more. */
  lemma AwardRaisesOneLevelAtMost()
    ensures var u := User(1, "u", "p", "e", None, Some(0), Some(1), None, None, None, None, None);
            var r := AwardPoints(u, 1000);
            r.gardenLevel == Some(2) && r.ecoPoints.value >= 4 * 200
  {
  }
}
