/** The bookkeeping done by the HTTP handlers of server/routes.ts. Each handler is one
    sequential step on the stores; request parsing, status codes beyond the error branches
    and logging are not modelled. The demo handlers act for user 1. */
module Routes {
  import opened Common
  import opened Schema
  import opened Storage
  import opened UsersTable
  import opened BudgetSchema
  import opened EcoGamification

  /** The user every cart, order, budget and eco-reward handler acts for. */
  const DemoUserId := 1

  /** A handler's reply, down to what the model distinguishes. */
  datatype Reply<T> = Ok(body: T) | NotFound | BadRequest | ServerError

  // ---- GET /api/products ------------------------------------------------------------------

  /** A non-empty `search` wins over `category`; with neither, every product is listed. An
      empty query string is as absent as a missing one. */
  function ListProducts(store: MemStorage, search: string, category: Option<int>): (r: seq<Product>)
    reads store
    requires store.Valid()
    ensures search != "" ==>
              forall p :: p in r <==> p in store.products.Values && MatchesQuery(p, search)
    ensures search == "" && category.Some? ==>
              forall p :: p in r <==> p in store.products.Values && p.categoryId == category
    ensures search == "" && category.None? ==>
              forall p :: p in r <==> p in store.products.Values
    ensures forall i, j :: 0 <= i < j < |r| ==> r[i].id < r[j].id
  {
    if search != "" then store.SearchProducts(search)
    else if category.Some? then store.GetProductsByCategory(category.value)
    else store.GetProducts()
  }

  // ---- POST /api/cart ---------------------------------------------------------------------

  /** Adds to user 1's cart, then, when the product exists with positive stock, writes back
      that stock minus the returned row's quantity (the merged total, not the amount just
      added; nothing keeps the result from going negative), then awards 10 eco-points to
      user 1 when the product is organic or local. */
  method PostCart(store: MemStorage, productId: Option<int>, quantity: int) returns (item: CartItem)
    requires store.Valid()
    modifies store`cartItems, store`currentCartId, store`products, store`users
    ensures store.Valid()
    ensures CartAddition(item, store.cartItems, store.currentCartId)
            == CartWithAdded(old(store.cartItems), old(store.currentCartId), NewCartItem(Some(DemoUserId), productId, quantity))
    ensures var p := ProductOf(old(store.products), item);
            store.products
            == if p.Some? && p.value.stock > 0
               then old(store.products)[p.value.id := p.value.(stock := p.value.stock - item.quantity)]
               else old(store.products)
    ensures var p := ProductOf(old(store.products), item);
            store.users
            == if p.Some? && (p.value.isOrganic == Some(true) || p.value.isLocal == Some(true)) && DemoUserId in old(store.users)
               then old(store.users)[DemoUserId := AwardPoints(old(store.users)[DemoUserId], 10)]
               else old(store.users)
  {
    ghost var products, users := store.products, store.users;
    item := store.AddToCart(NewCartItem(Some(DemoUserId), productId, quantity));
    ghost var added := CartAddition(item, store.cartItems, store.currentCartId);
    var product := if item.productId.Some? then store.GetProduct(item.productId.value) else None;
    assert product == ProductOf(products, item);
    if product.Some? && product.value.stock > 0 {
      assert product.value.id == item.productId.value;
      var updated := store.UpdateProductStock(item.productId.value, product.value.stock - item.quantity);
    }
    assert store.users == users;
    ghost var stocked := store.products;
    if product.Some? && (product.value.isOrganic == Some(true) || product.value.isLocal == Some(true)) {
      var awarded := store.UpdateUserEcoPoints(DemoUserId, 10);
    }
    assert store.products == stocked;
    assert CartAddition(item, store.cartItems, store.currentCartId) == added;
  }

  /** Posting 2 units and then 1 unit of a product the user has no row for merges into one
      row, which holds 3 after the second post. */
  lemma RepeatedPostsMergeRows(cart: map<int, CartItem>, next: int, productId: int)
    requires CartInvariant(cart, next)
    requires forall k :: k in cart ==> cart[k].userId != Some(DemoUserId)
    ensures var first := CartWithAdded(cart, next, NewCartItem(Some(DemoUserId), Some(productId), 2));
            var second := CartWithAdded(first.cart, first.next, NewCartItem(Some(DemoUserId), Some(productId), 1));
            && first.item.quantity == 2 && second.item.quantity == 3
            && second.item.id == first.item.id && second.next == first.next
  {
    var first := CartWithAdded(cart, next, NewCartItem(Some(DemoUserId), Some(productId), 2));
    assert CartRowFor(cart, next, Some(DemoUserId), Some(productId)).None?;
    var row := CartRowFor(first.cart, first.next, Some(DemoUserId), Some(productId));
    assert row.Some? by {
      assert first.item.id in first.cart && first.cart[first.item.id] == first.item;
    }
    assert row.value == first.item by {
      assert OneRowPerLine(first.cart);
    }
  }

  /** The cart after the two posts of `RepeatedPostsOverdrawStock`, starting from an empty cart. */
  lemma TwoPostsFromEmpty(productId: int)
    ensures var first := CartWithAdded(map[], 1, NewCartItem(Some(DemoUserId), Some(productId), 2));
            var second := CartWithAdded(first.cart, first.next, NewCartItem(Some(DemoUserId), Some(productId), 1));
            && first == CartAddition(CartItem(1, Some(DemoUserId), Some(productId), 2), map[1 := first.item], 2)
            && second == CartAddition(CartItem(1, Some(DemoUserId), Some(productId), 3), map[1 := second.item], 2)
  {
    RepeatedPostsMergeRows(map[], 1, productId);
  }

  /** Two posts, of 2 units and then 1 unit, of a product stocked at 3 in an empty store: the
      write-backs take off 2 (the first row) and then 3 (the merged row, not the 1 just
      added), so the stock ends at -2 while the cart holds one row of 3. */
  method RepeatedPostsOverdrawStock(details: ProductDetails) returns (stock: int, row: CartItem, rows: nat)
    ensures row.quantity == 3 && rows == 1
    ensures stock == -2
  {
    var store := new MemStorage();
    var p := store.CreateProduct(NewProduct("product", "", None, 3, None, None, details));
    assert store.products == map[p.id := p] && store.cartItems == map[] && store.currentCartId == 1;
    TwoPostsFromEmpty(p.id);
    var first := PostCart(store, Some(p.id), 2);
    assert first == CartItem(1, Some(DemoUserId), Some(p.id), 2);
    assert store.cartItems == map[1 := first] && store.currentCartId == 2;
    assert store.products == map[p.id := p.(stock := 1)];
    row := PostCart(store, Some(p.id), 1);
    assert row == CartItem(1, Some(DemoUserId), Some(p.id), 3);
    assert store.cartItems == map[1 := row];
    stock := store.products[p.id].stock;
    rows := |store.cartItems|;
  }

  // ---- POST /api/orders -------------------------------------------------------------------

  /** Stores the order for user 1, stamped `now`, then clears user 1's cart: afterwards user 1
      has no cart rows and every other user's rows are as they were. */
  method PostOrders(store: MemStorage, body: NewOrder, now: int) returns (o: Order)
    requires store.Valid()
    modifies store`orders, store`currentOrderId, store`cartItems
    ensures store.Valid()
    ensures o == Order(old(store.currentOrderId), Some(DemoUserId), body.total, body.status, now, body.items)
    ensures store.orders == old(store.orders)[o.id := o] && o.id !in old(store.orders)
    ensures store.cartItems == WithoutUserRows(old(store.cartItems), DemoUserId)
    ensures store.GetCartItems(DemoUserId) == []
  {
    o := store.CreateOrder(body.(userId := Some(DemoUserId)), now);
    var cleared := store.ClearCart(DemoUserId);
  }

  // ---- PUT /api/user/budget ---------------------------------------------------------------

  /** A body whose `budget` is missing or not a decimal with at most two places is refused with
      nothing written; otherwise user 1's budget is set, or not found when there is no user 1. */
  method PutUserBudget(store: MemStorage, budget: Option<string>) returns (r: Reply<User>)
    requires store.Valid()
    modifies store`users
    ensures store.Valid()
    ensures !(budget.Some? && MatchesBudgetPattern(budget.value)) ==>
              r == BadRequest && store.users == old(store.users)
    ensures budget.Some? && MatchesBudgetPattern(budget.value) && DemoUserId !in old(store.users) ==>
              r == NotFound && store.users == old(store.users)
    ensures budget.Some? && MatchesBudgetPattern(budget.value) && DemoUserId in old(store.users) ==>
              && r == Ok(old(store.users)[DemoUserId].(budget := budget))
              && store.users == old(store.users)[DemoUserId := r.body]
  {
    var validated := ParseBudget(budget);
    if validated.None? {
      return BadRequest;
    }
    var user := store.UpdateUserBudget(DemoUserId, validated.value);
    if user.None? {
      return NotFound;
    }
    r := Ok(user.value);
  }

  // ---- POST /api/eco-action and POST /api/eco-choice ---------------------------------------

  /** Every counter within its tier: badges 0..9, seeds 0..2, plants 0..2, fruits unbounded. */
  predicate InRange(p: Progress)
  {
    0 <= p.ecoBadges <= 9 && 0 <= p.seeds <= 2 && 0 <= p.plants <= 2 && 0 <= p.fruits
  }

  /** The number the counters spell when read as the digits of an odometer with wheels of
      10, 3 and 3 positions under an unbounded fruit count. */
  function Odometer(p: Progress): int
  {
    p.ecoBadges + 10 * p.seeds + 30 * p.plants + 90 * p.fruits
  }

  /** The counters after one action under the cascading rule: a badge; ten badges make a
      seed; three seeds a plant; three plants a fruit; the three checks run in turn, so one
      action can roll over every tier. On counters within their tiers it advances the
      odometer by exactly one and keeps them within their tiers. */
  function CascadeReward(p: Progress): (r: Progress)
    ensures InRange(p) ==> InRange(r) && r.fruits >= p.fruits
    ensures InRange(p) ==> Odometer(r) == Odometer(p) + 1
    ensures r.fruits == p.fruits || r.fruits == p.fruits + 1
    ensures p.ecoBadges + 1 < 10 && p.seeds < 3 && p.plants < 3 ==> r == p.(ecoBadges := p.ecoBadges + 1)
  {
    var badges := p.ecoBadges + 1;
    var (badges, seeds) := if badges >= 10 then (0, p.seeds + 1) else (badges, p.seeds);
    var (seeds, plants) := if seeds >= 3 then (0, p.plants + 1) else (seeds, p.plants);
    var (plants, fruits) := if plants >= 3 then (0, p.fruits + 1) else (plants, p.fruits);
    Progress(badges, seeds, plants, fruits)
  }

  /** The last badge of a full set of counters rolls every tier over into one fruit. */
  lemma FullCascade(fruits: int)
    ensures CascadeReward(Progress(9, 2, 2, fruits)) == Progress(0, 0, 0, fruits + 1)
  {
  }

  /** The counters after `n` actions of a user whose counters start out missing. */
  function CascadeFromZero(n: nat): Progress
  {
    if n == 0 then Progress(0, 0, 0, 0) else CascadeReward(CascadeFromZero(n - 1))
  }

  /** After `n` actions from nothing the counters are the digits of `n` in the mixed radix
      10, 3, 3: `n % 10` badges, `(n / 10) % 3` seeds, `(n / 30) % 3` plants, `n / 90` fruits. */
  lemma CascadeCountsActions(n: nat)
    ensures CascadeFromZero(n) == Progress(n % 10, (n / 10) % 3, (n / 30) % 3, n / 90)
  {
    CascadeOdometer(n);
    OdometerDigits(CascadeFromZero(n), n);
  }

  lemma {:induction false} CascadeOdometer(n: nat)
    ensures InRange(CascadeFromZero(n)) && Odometer(CascadeFromZero(n)) == n
  {
    if n > 0 {
      CascadeOdometer(n - 1);
    }
  }

  /** Counters within their tiers are determined by their odometer reading. */
  lemma OdometerDigits(p: Progress, n: int)
    requires InRange(p) && Odometer(p) == n
    ensures p == Progress(n % 10, (n / 10) % 3, (n / 30) % 3, n / 90)
  {
    assert n == 10 * (p.seeds + 3 * p.plants + 9 * p.fruits) + p.ecoBadges;
    assert n / 10 == p.seeds + 3 * p.plants + 9 * p.fruits;
    assert n == 30 * (p.plants + 3 * p.fruits) + (p.ecoBadges + 10 * p.seeds);
    assert n / 30 == p.plants + 3 * p.fruits;
    assert n == 90 * p.fruits + (p.ecoBadges + 10 * p.seeds + 30 * p.plants);
  }

  /** `/api/eco-action`: reads user 1, applies the cascading rule to the counters with
      missing ones read as 0, writes the four counters back and replies with them; no user 1
      gives not found with nothing written. */
  method EcoAction(db: UserTable) returns (r: Reply<Progress>)
    modifies db
    ensures DemoUserId !in old(db.rows) ==> r == NotFound && db.rows == old(db.rows)
    ensures DemoUserId in old(db.rows) ==>
              && r == Ok(CascadeReward(ProgressOf(old(db.rows)[DemoUserId])))
              && db.rows == old(db.rows)[DemoUserId := WithProgress(old(db.rows)[DemoUserId], r.body)]
  {
    var user := db.FindFirst(DemoUserId);
    if user.None? {
      return NotFound;
    }
    var ecoBadges := user.value.ecoBadges.GetOr(0);
    var seeds := user.value.seeds.GetOr(0);
    var plants := user.value.plants.GetOr(0);
    var fruits := user.value.fruits.GetOr(0);
    ecoBadges := ecoBadges + 1;
    if ecoBadges >= 10 {
      ecoBadges := 0;
      seeds := seeds + 1;
    }
    if seeds >= 3 {
      seeds := 0;
      plants := plants + 1;
    }
    if plants >= 3 {
      plants := 0;
      fruits := fruits + 1;
    }
    var progress := Progress(ecoBadges, seeds, plants, fruits);
    db.SetProgress(DemoUserId, progress);
    r := Ok(progress);
  }

  /** `/api/eco-choice`, a second copy of the same steps: on the same table it replies with
      and writes exactly what `EcoAction` does. */
  method EcoChoice(db: UserTable) returns (r: Reply<Progress>)
    modifies db
    ensures DemoUserId !in old(db.rows) ==> r == NotFound && db.rows == old(db.rows)
    ensures DemoUserId in old(db.rows) ==>
              && r == Ok(CascadeReward(ProgressOf(old(db.rows)[DemoUserId])))
              && db.rows == old(db.rows)[DemoUserId := WithProgress(old(db.rows)[DemoUserId], r.body)]
  {
    var user := db.FindFirst(DemoUserId);
    if user.None? {
      return NotFound;
    }
    var ecoBadges := user.value.ecoBadges.GetOr(0);
    var seeds := user.value.seeds.GetOr(0);
    var plants := user.value.plants.GetOr(0);
    var fruits := user.value.fruits.GetOr(0);
    ecoBadges := ecoBadges + 1;
    if ecoBadges >= 10 {
      ecoBadges := 0;
      seeds := seeds + 1;
    }
    if seeds >= 3 {
      seeds := 0;
      plants := plants + 1;
    }
    if plants >= 3 {
      plants := 0;
      fruits := fruits + 1;
    }
    db.SetProgress(DemoUserId, Progress(ecoBadges, seeds, plants, fruits));
    r := Ok(Progress(ecoBadges, seeds, plants, fruits));
  }

  // ---- POST /api/eco-swap/accept -----------------------------------------------------------

  /** Runs the flat reward for the user named in the body: a throw becomes a server error. */
  method EcoSwapAccept(db: UserTable, userId: int) returns (r: Reply<()>)
    modifies db
    ensures userId !in old(db.rows) ==> r == ServerError && db.rows == old(db.rows)
    ensures userId in old(db.rows) ==>
              && r == Ok(())
              && db.rows == old(db.rows)[userId := WithProgress(old(db.rows)[userId], FlatReward(ProgressOf(old(db.rows)[userId])))]
  {
    var c := RewardEcoFriendlyAction(db, userId);
    if c.Threw? {
      return ServerError;
    }
    r := Ok(());
  }

  // ---- the two reward rules side by side ---------------------------------------------------

  /** On a full set of counters the two rules part ways: the cascade rolls over into one fruit,
      the flat rule leaves seeds and plants past their tiers. */
  lemma RulesDisagreeOnFullCounters()
    ensures CascadeReward(Progress(9, 2, 2, 0)) == Progress(0, 0, 0, 1)
    ensures FlatReward(Progress(9, 2, 2, 0)) == Progress(0, 3, 3, 1)
    ensures InRange(Progress(9, 2, 2, 0)) && !InRange(FlatReward(Progress(9, 2, 2, 0)))
  {
  }

  /** The rules agree on every action that does not complete a set of ten badges. */
  lemma RulesAgreeBelowTenBadges(p: Progress)
    requires InRange(p) && p.ecoBadges < 9
    ensures CascadeReward(p) == FlatReward(p)
  {
  }
}
