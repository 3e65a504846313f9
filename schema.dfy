/** The rows of the shop's tables (shared/schema.ts). Nullable columns are `Option`s;
    decimal columns stay decimal strings, as the source keeps them; timestamps, which the
    source writes as ISO strings from the clock, are abstract integers here. */
module Schema {
  import opened Common

  /** A shopper. The four garden counters are read and written by the eco-reward code
      although the `users` table declaration does not list them; they are nullable. */
  datatype User = User(
    id: int,
    username: string,
    password: string,
    email: string,
    budget: Option<string>,
    ecoPoints: Option<int>,
    gardenLevel: Option<int>,
    co2Saved: Option<string>,
    ecoBadges: Option<int>,
    seeds: Option<int>,
    plants: Option<int>,
    fruits: Option<int>)

  /** What a caller supplies to create a user. */
  datatype NewUser = NewUser(username: string, password: string, email: string, budget: Option<string>)

  /** The `qrData` column: where a product comes from and how it is made and packed. */
  datatype QrData = QrData(origin: string, manufacturing: string, packaging: string, certifications: seq<string>)

  /** The product columns that nothing in the bookkeeping reads or writes. */
  datatype ProductDetails = ProductDetails(
    price: string,
    originalPrice: Option<string>,
    imageUrl: string,
    carbonFootprint: string,
    ecoRating: int,
    isFairTrade: Option<bool>,
    isReusable: Option<bool>,
    isBiodegradable: Option<bool>,
    expiryDiscount: Option<int>,
    expiryDays: Option<int>,
    qrData: Option<QrData>)

  datatype Product = Product(
    id: int,
    name: string,
    description: string,
    categoryId: Option<int>,
    stock: int,
    isOrganic: Option<bool>,
    isLocal: Option<bool>,
    details: ProductDetails)

  datatype NewProduct = NewProduct(
    name: string,
    description: string,
    categoryId: Option<int>,
    stock: int,
    isOrganic: Option<bool>,
    isLocal: Option<bool>,
    details: ProductDetails)

  /** One cart row: a quantity of one product in one user's cart. */
  datatype CartItem = CartItem(id: int, userId: Option<int>, productId: Option<int>, quantity: int)

  datatype NewCartItem = NewCartItem(userId: Option<int>, productId: Option<int>, quantity: int)

  datatype Notification = Notification(
    id: int,
    userId: Option<int>,
    kind: string,
    title: string,
    message: string,
    isRead: Option<bool>,
    createdAt: int)

  datatype NewNotification = NewNotification(
    userId: Option<int>,
    kind: string,
    title: string,
    message: string,
    isRead: Option<bool>)

  /** A line of an order: a copy of what the cart held when the order was placed. */
  datatype OrderLine = OrderLine(productId: int, productName: string, quantity: int, price: string, imageUrl: string)

  datatype Order = Order(
    id: int,
    userId: Option<int>,
    total: string,
    status: string,
    orderDate: int,
    items: seq<OrderLine>)

  datatype NewOrder = NewOrder(userId: Option<int>, total: string, status: string, items: seq<OrderLine>)
}
