# EcoMart server bookkeeping in Dafny

EcoMart is a demo eco-shopping storefront. This project models its server-side bookkeeping
and proves properties of that model:

- **`MemStorage`**, the in-memory store (`server/storage.ts`). It keeps users, products, cart
  rows, notifications and orders in id-keyed maps, with one auto-increment counter per table.
  It is modelled as the class `Storage.MemStorage`, with `map` fields, counter fields and
  methods that reassign them. The table invariant `Valid()` says:
  - every record sits under its own id;
  - every id is below its counter, and each counter starts at 1;
  - the cart holds at most one row per (user, product).

  Each query is a function that reads the maps. Each update is a method proved against a
  specification function (`CartWithAdded`, `WithoutUserRows`, `AwardPoints`, ...).
- **The route handlers** of `server/routes.ts` that do bookkeeping:
  - the product list dispatch;
  - the add-to-cart side effects (stock write-back, eco-point award);
  - checkout followed by clearing the cart;
  - the budget update;
  - the eco-action and eco-choice rewards. These follow the cascading badge → seed → plant →
    fruit rule, which behaves like an odometer.
- **`rewardEcoFriendlyAction`** (`server/utils/ecoGamification.ts`), a second reward rule.
  At ten badges it adds one seed, one plant and one fruit at once; it has no further
  thresholds. It is modelled on its own, and lemmas set the two rules side by side.
- **The budget validator** of `shared/schema.ts`, for the regular expression
  `^\d+(\.\d{1,2})?$`. It is written as a hand-written recogniser over `seq<char>`, proved equal
  to a direct statement of the regular language.

Iteration order of a JavaScript `Map` is insertion order. The store takes each new id from a
counter that only grows and never re-inserts a deleted id, so insertion order is ascending id
order. Module `IdOrder` lists a map's records in that order, and the queries are stated with
it: "exactly these records, in ascending id order".

The database `users` table, which the eco-reward code reads and writes
(`db.query.users.findFirst`, `db.update(users).set(...)`), is modelled as the class
`UsersTable.UserTable`. It is a second store, separate from `MemStorage`, as in the source.

Where the code and its declarations disagree, the model follows the code. The `users` table
declaration in `shared/schema.ts` has no `ecoBadges`, `seeds`, `plants` or `fruits` columns.
The reward code in `server/routes.ts` and `server/utils/ecoGamification.ts` reads and writes
them all the same, so the model's `User` record carries them as nullable fields.

Inputs from outside the program are parameters:
- the clock readings for `orderDate` and `createdAt` are an integer `now`;
- request bodies and query strings are plain values.

Modules and files:
- `common.dfy`: `Option`;
- `id_order.dfy`: listing in `Map` iteration order;
- `schema.dfy`: records;
- `budget.dfy`: the budget validator;
- `storage.dfy`: `MemStorage`;
- `users_table.dfy`: the database `users` table;
- `gamification.dfy`: `rewardEcoFriendlyAction`;
- `routes.dfy`: the handlers.

## Model

| member | source | states |
|---|---|---|
| Storage.MemStorage.constructor | server/storage.ts:111-132 | An empty store whose five id counters all start at 1 and which satisfies the table invariant. |
| Storage.MemStorage.Valid | server/storage.ts:111-132 | The table invariant. Under it every counter names an id no record holds, every cart row sits under its own id, and the cart holds at most one row per (user, product). |
| IdOrder.Select | server/storage.ts:732-734 | `Array.from(m.values()).filter(keep)`: exactly the records that `keep` accepts, in ascending id order, which is the `Map`'s insertion order. |
| IdOrder.Find | server/storage.ts:793-797 | `Array.from(m.values()).find(keep)`: None exactly when no record is accepted. Otherwise a stored accepted record, and no accepted record has a smaller id, so it is the first in iteration order. |
| Storage.MemStorage.GetUser | server/storage.ts:671-673 | Some exactly when the id is a key, and then the stored user. |
| Storage.MemStorage.GetUserByUsername | server/storage.ts:675-679 | None exactly when no user has that name. Otherwise a stored user with that name, the one with the smallest id, i.e. the first in iteration order. |
| Storage.MemStorage.CreateUser | server/storage.ts:681-691 | The new user has the counter's value as id, ecoPoints 0, gardenLevel 1 and co2Saved "0.00". It is stored under a fresh id, the counter advances by one, and the invariant is kept. |
| Storage.MemStorage.UpdateUserBudget | server/storage.ts:693-703 | An existing user gets the new budget and nothing else changes. A missing id returns None and the users are unchanged. |
| Storage.AwardPoints | server/storage.ts:709-719 | When both ecoPoints and gardenLevel are set, ecoPoints becomes old + points. The level rises by one exactly when the new total reaches 200 × the old level, else stays, so never more than one level. A user with either field null is unchanged. No other field changes. |
| Storage.AwardRaisesOneLevelAtMost | server/storage.ts:713-715 | A 1000-point award from level 1 stops at level 2, although the total already exceeds 4 × 200. |
| Storage.MemStorage.UpdateUserEcoPoints | server/storage.ts:705-720 | An existing user becomes `AwardPoints(user, points)` and no other user changes. A missing id returns None and the users are unchanged. |
| Storage.MemStorage.GetProducts | server/storage.ts:723-725 | Exactly the stored products, in ascending id order. |
| Storage.MemStorage.GetProduct | server/storage.ts:727-729 | Some exactly when the id is a key, and then the stored product. |
| Storage.MemStorage.GetProductsByCategory | server/storage.ts:731-735 | Exactly the stored products whose categoryId equals the argument, in ascending id order. |
| Storage.MemStorage.SearchProducts | server/storage.ts:737-744 | Exactly the stored products whose lower-cased name or description contains the lower-cased query, in ascending id order. |
| Storage.LowerChar | server/storage.ts:738-742 | An upper-case ASCII letter maps to its lower-case letter, every other character to itself, and no result is an upper-case letter. |
| Storage.Lower | server/storage.ts:738-742 | Same length as the input, each character lower-cased by `LowerChar`. |
| Storage.Contains | server/storage.ts:741-742 | `includes`: the text is a prefix of some suffix of the string. The empty string is included in every string, and nothing longer than the string is. |
| Storage.MatchesQuery | server/storage.ts:738-742 | The empty query matches every product, and a matching query is no longer than the product's name or its description. |
| Storage.SearchIgnoresQueryCase | server/storage.ts:738-743 | Searching for a query and for its lower-cased form give the same list. |
| Storage.EmptySearchListsAll | server/storage.ts:737-744 | Searching for the empty string lists every product, exactly as `getProducts` does. |
| Storage.MemStorage.CreateProduct | server/storage.ts:746-750 | The product is stored under the counter's value, a fresh id, and the counter advances by one. |
| Storage.MemStorage.UpdateProductStock | server/storage.ts:752-762 | An existing product gets the new stock and nothing else changes. A missing id returns None and the products are unchanged. |
| Storage.JoinProducts | server/storage.ts:785-788 | One line per row, in the same order, each pairing the row with its product looked up by productId (None when missing). |
| Storage.ProductOf | server/storage.ts:786 | `products.get(item.productId)`: Some exactly when the row names a product id that is a key, and then that product. |
| Storage.MemStorage.GetCartItems | server/storage.ts:779-789 | The items are exactly the user's rows, in ascending id order, each paired with its product lookup. |
| Storage.CartRowFor | server/storage.ts:793-797 | None exactly when no row has that user and product. Otherwise a stored row with that user and product, and no such row has a smaller id, so it is the first in iteration order. |
| Storage.CartWithAdded | server/storage.ts:791-808 | With an existing row for (user, product), that row keeps its id and gets old + added quantity, and the counter does not move. Otherwise a row with the added quantity is stored under the id `next`, which was free, and the counter becomes next + 1. No other row changes, and the cart invariant (one row per line, ids below the counter) is kept. |
| Storage.MergedRow | server/storage.ts:799-802 | The existing row gets old + added quantity under its own id, the counter stays, and the invariant is kept. |
| Storage.NewRow | server/storage.ts:805-807 | A new row is stored under the free id `next` and the counter passes it. One row per (user, product) is kept, given that there was no row for that line. |
| Storage.InsertKeepsOneRow | server/storage.ts:805-806 | Inserting a row under a fresh id, for a line with no row, keeps one row per line and grows the cart by one. |
| Storage.ReplaceKeepsOneRow | server/storage.ts:800-801 | Replacing a row by one with the same user and product keeps one row per line and the cart's size. |
| Storage.MemStorage.AddToCart | server/storage.ts:791-808 | The returned row, the new cart and the new counter are exactly `CartWithAdded` of the old cart and counter. The table invariant is kept. |
| Storage.MemStorage.UpdateCartItem | server/storage.ts:810-820 | An existing row gets the new quantity and nothing else changes. A missing id returns None and the cart is unchanged. |
| Storage.MemStorage.RemoveFromCart | server/storage.ts:822-824 | Returns true exactly when the id was present. Afterwards the id is absent and every other row is unchanged. |
| Storage.WithoutUserRows | server/storage.ts:826-832 | No row of the user remains, every row of another user (or of none) is kept unchanged, and every remaining row is a row of the old cart under the same id, so nothing is added or altered. |
| Storage.RemoveAll | server/storage.ts:830 | Deleting the ids one by one adds no key, and no deleted id remains. |
| Storage.RemoveAllLeaves | server/storage.ts:830 | After the deletions exactly the keys not among the ids remain, each with its old value. |
| Storage.UserRowsRemoved | server/storage.ts:827-830 | Deleting, one by one, the ids the filter selects gives exactly `WithoutUserRows`, and keeps the cart invariant. |
| Storage.SubCartKeepsOneRow | server/storage.ts:830 | Deleting rows keeps one row per (user, product). |
| Storage.MemStorage.ClearCart | server/storage.ts:826-832 | Always returns true. The cart becomes `WithoutUserRows(old cart, user)`, and the invariant is kept. |
| Storage.MemStorage.GetUserNotifications | server/storage.ts:871-875 | Exactly the user's notifications, in ascending id order. |
| Storage.MemStorage.CreateNotification | server/storage.ts:877-887 | The notification is stored under the counter's value, a fresh id, stamped with `now`, and the counter advances by one. |
| Storage.MemStorage.MarkNotificationRead | server/storage.ts:889-897 | Returns true exactly when the id was present, and then only that notification's isRead becomes true. Otherwise nothing changes. |
| Storage.SortNewestFirst | server/storage.ts:926-929 | The result is ordered by orderDate, newest first, and is a permutation of the input. |
| Storage.InsertKeepsTies | server/storage.ts:926-929 | Inserting an order whose id is below every id of the list puts it in front of the orders of its own date, so equal dates stay in ascending id order. |
| Storage.SortKeepsTies | server/storage.ts:926-929 | The stability `Array.prototype.sort` guarantees: on a list in ascending id order, orders with the same date stay in ascending id order. |
| Storage.MemStorage.GetUserOrders | server/storage.ts:923-930 | Exactly the user's orders, newest first, with orders of the same date in ascending id order (their insertion order), and as a multiset the same as the user's orders listed by id. |
| Storage.MemStorage.CreateOrder | server/storage.ts:932-940 | The order is stored under the counter's value, a fresh id, dated `now`, and the counter advances by one. |
| BudgetSchema.ParseBudget | shared/schema.ts:145-147 | Validation succeeds exactly when the field is present and matches `^\d+(\.\d{1,2})?$`, and then yields the field unchanged. |
| BudgetSchema.DigitsEnd | shared/schema.ts:146 | The scan stops at the first non-digit at or after the start, or at the end: every character it passes is a digit. |
| BudgetSchema.IsValidBudget | shared/schema.ts:146 | The hand-written recogniser accepts exactly the strings of the regular language `^\d+(\.\d{1,2})?$`, stated independently as digits, optionally followed by a dot and one or two digits. |
| BudgetSchema.AcceptedBudgetShape | shared/schema.ts:146 | An accepted budget is non-empty and starts and ends with a digit, so it has no sign and no leading or trailing dot. Every character is a digit or a dot, and there is at most one dot. |
| BudgetSchema.AcceptedExamples | shared/schema.ts:146 | "100", "0", "42.5" and "42.50" are accepted. |
| BudgetSchema.RejectedExamples | shared/schema.ts:146 | "-5.00", "1.234", "1.", ".5" and "" are rejected. |
| UsersTable.ProgressOf | server/routes.ts:211-214 | Each counter reads as its stored value, or 0 when null. |
| UsersTable.WithProgress | server/routes.ts:237-245 | Reading the counters back gives exactly what was written, all four are set, and no other column changes. |
| UsersTable.UserTable.FindFirst | server/routes.ts:200-202 | Some exactly when a row has that primary key, and then that row, whose `id` column is that key when every row sits under its own id. |
| UsersTable.UserTable.SetProgress | server/routes.ts:237-245 | The row with that id, if any, gets the four counters. Every other row and column is unchanged, there is no write for a missing id, and every row still sits under its own id. |
| Routes.ListProducts | server/routes.ts:33-39 | A non-empty search gives exactly the matching products. Otherwise a category gives exactly that category's products, and with neither every product is listed. All in ascending id order. |
| Routes.PostCart | server/routes.ts:79-110 | The cart changes as `CartWithAdded` for user 1. If the product exists with stock > 0, its stock becomes stock minus the returned row's quantity, the merged total. Otherwise the products are unchanged. User 1 gets `AwardPoints(user, 10)` exactly when the product exists and is organic or local. Nothing else changes. |
| Routes.RepeatedPostsMergeRows | server/routes.ts:87-88 | For a user with no row for a product, posting 2 units and then 1 unit merges into one row, of 2 and then of 3, under the same id. |
| Routes.TwoPostsFromEmpty | server/routes.ts:87-88 | From an empty cart, the two posts leave exactly one row, id 1, holding 2 and then 3, with the counter at 2. |
| Routes.RepeatedPostsOverdrawStock | server/routes.ts:87-95 | Two posts through `PostCart`, of 2 units and then 1 unit, of a product stocked at 3 in an empty store: the stock guard passes both times, the write-backs take off 2 and then 3, and the stock ends at -2 while the cart holds one row of 3. |
| Routes.PostOrders | server/routes.ts:351-368 | The order is stored for user 1, dated `now`. The cart then loses exactly user 1's rows, so user 1's cart lists nothing, and the table invariant is kept. |
| Routes.PutUserBudget | server/routes.ts:261-275 | A missing or ill-formed budget gives a validation failure with nothing written. A valid one with no user 1 gives not found. Otherwise only user 1's budget is set, and the updated user is returned. |
| Routes.CascadeReward | server/routes.ts:211-233 | On counters within their tiers (badges ≤ 9, seeds ≤ 2, plants ≤ 2) the result is within the tiers, fruits do not decrease, and the odometer reading b + 10s + 30p + 90f grows by exactly one. Fruits grow by at most one. Away from the thresholds only the badge count moves. |
| Routes.FullCascade | server/routes.ts:218-233 | {9, 2, 2, f} becomes {0, 0, 0, f + 1}: one action rolls over every tier. |
| Routes.CascadeOdometer | server/routes.ts:218-233 | After n actions from nothing the counters are within their tiers and read n on the odometer. |
| Routes.CascadeCountsActions | server/routes.ts:211-233 | After n actions from nothing the counters are (n mod 10, (n / 10) mod 3, (n / 30) mod 3, n / 90). |
| Routes.OdometerDigits | server/routes.ts:218-233 | Counters within their tiers are determined by their odometer reading. |
| Routes.EcoAction | server/routes.ts:192-259 | No user 1 gives not found with nothing written. Otherwise the reply and the write-back of the four counters are exactly `CascadeReward` of the stored counters (null read as 0), and nothing else changes. |
| Routes.EcoChoice | server/routes.ts:371-414 | The same reply and the same write as `EcoAction` on the same table: `CascadeReward` of user 1's counters, or not found with nothing written. |
| Routes.EcoSwapAccept | server/routes.ts:16-26 | A missing user gives a server error with nothing written. Otherwise the user's counters get `FlatReward` and the reply is success. |
| Routes.RulesDisagreeOnFullCounters | server/routes.ts:218-233 | From {9, 2, 2, 0} the cascade gives {0, 0, 0, 1} and the flat rule gives {0, 3, 3, 1}. That leaves seeds and plants outside the tiers the cascade keeps. |
| Routes.RulesAgreeBelowTenBadges | server/routes.ts:218-223 | Within the tiers, an action that does not complete ten badges has the same effect under both rules. |
| EcoGamification.FlatReward | server/utils/ecoGamification.ts:13-23 | Badges become old + 1 and nothing else moves, unless that reaches 10. Then badges reset to 0 and seeds, plants and fruits each grow by exactly one. The three always grow together. With badges in 0..9 the badge count stays in 0..9 and b + 10f grows by one. |
| EcoGamification.RewardEcoFriendlyAction | server/utils/ecoGamification.ts:6-34 | A missing user throws "User not found" with nothing written. Otherwise only that user's four counters are written, with `FlatReward` of the stored counters (null read as 0). |
| EcoGamification.FlatCountsActions | server/utils/ecoGamification.ts:18-23 | After n actions from nothing the counters are (n mod 10, n / 10, n / 10, n / 10). |
| EcoGamification.SeedsGrowWithoutBound | server/utils/ecoGamification.ts:18-23 | For every bound, 10 × bound + 10 actions take seeds and plants past it: there is no ceiling. |

## Left out

- Recipes, categories, eco swaps and garden progress in `MemStorage`, with their counters and methods. They are outside the bookkeeping modelled here.
- The demo seed data that `initializeData` loads, including base64 images. The model's store starts empty, with the counters at 1.
- Drizzle/Neon database I/O. It is modelled only as the key lookup and counter write of `UserTable`.
- Express plumbing: request objects, status codes other than the error replies, JSON bodies, and console logging.
- The response messages of the eco routes.
- Handlers that only forward one storage call (GET cart, user, notifications and orders; GET of one product by id, which forwards `getProduct`; PUT and DELETE of one cart row; DELETE of the whole cart, which forwards `clearCart(1)`; the notification handlers). The storage calls themselves are modelled.
- Async and concurrency. Each handler is one atomic sequential step, so interleaved requests, such as two add-to-cart calls racing, are not modelled.
- The clock. `new Date().toISOString()` is replaced by an integer `now`, and ISO-string date comparison by integer comparison.
- Zod parsing of the insert schemas. They come from a library whose behaviour is not visible. The model takes the parsed record directly: cart quantity present, users' extra fields absent.
- JavaScript `null` and `undefined` are both `None`. `addToCart`'s `===` on userId and productId would tell them apart. So would `updateUserEcoPoints`'s `!== null` test: an `undefined` ecoPoints would become NaN there, while `AwardPoints` leaves the user unchanged. No modelled path creates such a user, since `createUser` sets both fields.
- `toLowerCase` is modelled for ASCII letters only. Other case mappings of Unicode are not modelled.
- `Number(category)` of a non-numeric category string (NaN) is not modelled; the category is an optional integer.
- Floating-point numbers: decimal columns stay strings, and all integers are unbounded.
- Aliasing: the source mutates the stored object that was also returned to the caller. The model works on values, and what it returns equals what it stores.
- The users table's `ecoBadges`, `seeds`, `plants` and `fruits` columns. The `users` declaration in `shared/schema.ts`, from which the database client is built, declares none of them. The model assumes the table has them as nullable integer columns, as the reward code reads and writes them.
