/**
 * The analytics layer: pure shaping of tag-manager events, each appended with a
 * timestamp to the page's `dataLayer` queue. Cart events carry a snapshot of the whole
 * cart joined with the catalog, not just the change. Console logging is left out.
 */
module Analytics {
  import opened Types
  import opened ProductService

  /** Where the code runs: `hasWindow` is false during server rendering. */
  datatype Env = Env(hasWindow: bool, origin: string)

  /** `window.location.origin` in a browser, the empty string otherwise. */
  function BaseUrl(env: Env): string {
    if env.hasWindow then env.origin else ""
  }

  function ProductUrl(env: Env, id: string): string {
    BaseUrl(env) + "/products/" + id
  }

  /** One entry of an event's `items` list. */
  datatype Item = Item(
    itemId: string,
    name: string,
    price: int,
    quantity: int,
    itemUrl: string,
    itemImageUrl: string,
    categoryName: string)

  /** The event-specific fields of each event kind the layer emits. */
  datatype Params =
    | ViewItem(itemId: string, name: string, price: int, itemUrl: string, itemImageUrl: string, lCategoryName: string)
    | Cart(
        price: int,
        quantity: int,
        status: bool,
        items: seq<Item>,
        addedItemId: Option<string>,
        deletedItemId: Option<string>,
        itemIds: seq<string>,
        itemNames: seq<string>,
        itemPrices: seq<int>,
        itemQuantities: seq<int>,
        itemUrls: seq<string>,
        itemImageUrls: seq<string>)
    | Buy(price: int, quantity: int, items: seq<Item>)
    | Search(keyword: string)
    | Login
    | Signup(name: string, email: string, signupDate: string)

  /** One queued event: the discriminator, its fields and an ISO timestamp. */
  datatype Record = Record(event: string, params: Params, timestamp: string)

  /**
   * Appends exactly one record, carrying the event name, the fields and the timestamp,
   * to the queue; outside a browser there is no queue and nothing happens.
   */
  function Push(env: Env, queue: seq<Record>, event: string, params: Params, timestamp: string): (r: seq<Record>)
    ensures env.hasWindow ==> |r| == |queue| + 1 && r[..|queue|] == queue
    ensures env.hasWindow ==> r[|queue|].event == event && r[|queue|].params == params && r[|queue|].timestamp == timestamp
    ensures !env.hasWindow ==> r == queue
  {
    if env.hasWindow then queue + [Record(event, params, timestamp)] else queue
  }

  /**
   * A cart line joined with the catalog: id and quantity from the line, the rest from
   * the first product with that id, or '' and 0 when there is none.
   */
  function ItemFor(env: Env, line: CartItem, products: seq<Product>): (it: Item)
    ensures it.itemId == line.productId && it.quantity == line.quantity
    ensures it.itemUrl == ProductUrl(env, line.productId)
    ensures Find(products, line.productId).None? ==>
              it.name == "" && it.price == 0 && it.itemImageUrl == "" && it.categoryName == ""
    ensures Find(products, line.productId).Some? ==>
              var p := Find(products, line.productId).value;
              it.name == p.name && it.price == p.price && it.itemImageUrl == p.imageUrl && it.categoryName == p.category
  {
    match Find(products, line.productId)
    case None => Item(line.productId, "", 0, line.quantity, ProductUrl(env, line.productId), "", "")
    case Some(p) => Item(line.productId, p.name, p.price, line.quantity, ProductUrl(env, line.productId), p.imageUrl, p.category)
  }

  /** The `items` list of a cart or buy event: one entry per cart line, in cart order. */
  function Items(env: Env, cart: seq<CartItem>, products: seq<Product>): (r: seq<Item>)
    ensures |r| == |cart|
    ensures forall i :: 0 <= i < |cart| ==> r[i] == ItemFor(env, cart[i], products)
  {
    seq(|cart|, i requires 0 <= i < |cart| => ItemFor(env, cart[i], products))
  }

  /** `items.reduce((sum, item) => sum + item.price * item.quantity, 0)`. */
  function TotalPrice(items: seq<Item>): int
    decreases |items|
  {
    if |items| == 0 then 0 else items[0].price * items[0].quantity + TotalPrice(items[1..])
  }

  /** `items.reduce((sum, item) => sum + item.quantity, 0)`. */
  function TotalQuantity(items: seq<Item>): int
    decreases |items|
  {
    if |items| == 0 then 0 else items[0].quantity + TotalQuantity(items[1..])
  }

  /** The sum of the quantities of the cart lines themselves. */
  function LineQuantity(cart: seq<CartItem>): int
    decreases |cart|
  {
    if |cart| == 0 then 0 else cart[0].quantity + LineQuantity(cart[1..])
  }

  /** Summing the joined items' quantities is summing the lines' quantities. */
  lemma {:induction false} ItemsQuantity(env: Env, cart: seq<CartItem>, products: seq<Product>)
    ensures TotalQuantity(Items(env, cart, products)) == LineQuantity(cart)
    decreases |cart|
  {
    if |cart| > 0 {
      ItemsQuantity(env, cart[1..], products);
      assert Items(env, cart, products)[1..] == Items(env, cart[1..], products);
    }
  }

  function ItemIds(items: seq<Item>): seq<string> {
    seq(|items|, i requires 0 <= i < |items| => items[i].itemId)
  }

  function ItemNames(items: seq<Item>): seq<string> {
    seq(|items|, i requires 0 <= i < |items| => items[i].name)
  }

  function ItemPrices(items: seq<Item>): seq<int> {
    seq(|items|, i requires 0 <= i < |items| => items[i].price)
  }

  function ItemQuantities(items: seq<Item>): seq<int> {
    seq(|items|, i requires 0 <= i < |items| => items[i].quantity)
  }

  function ItemUrls(items: seq<Item>): seq<string> {
    seq(|items|, i requires 0 <= i < |items| => items[i].itemUrl)
  }

  function ItemImageUrls(items: seq<Item>): seq<string> {
    seq(|items|, i requires 0 <= i < |items| => items[i].itemImageUrl)
  }

  /** The fields of a cart event for a snapshot of `cart`, with the added or deleted id. */
  function CartParams(env: Env, cart: seq<CartItem>, products: seq<Product>,
                      added: Option<string>, deleted: Option<string>): (r: Params)
    ensures r.Cart? && |r.items| == |cart|
    ensures forall i :: 0 <= i < |cart| ==> r.items[i] == ItemFor(env, cart[i], products)
    ensures r.price == TotalPrice(r.items) && r.quantity == LineQuantity(cart)
    ensures r.status <==> |cart| > 0
    ensures r.addedItemId == added && r.deletedItemId == deleted
    ensures |r.itemIds| == |r.itemNames| == |r.itemPrices| == |r.itemQuantities| == |r.itemUrls| == |r.itemImageUrls| == |cart|
    ensures forall i :: 0 <= i < |cart| ==>
              && r.itemIds[i] == cart[i].productId
              && r.itemNames[i] == r.items[i].name
              && r.itemPrices[i] == r.items[i].price
              && r.itemQuantities[i] == cart[i].quantity
              && r.itemUrls[i] == r.items[i].itemUrl
              && r.itemImageUrls[i] == r.items[i].itemImageUrl
  {
    var items := Items(env, cart, products);
    ItemsQuantity(env, cart, products);
    Cart(TotalPrice(items), TotalQuantity(items), |items| > 0, items, added, deleted,
         ItemIds(items), ItemNames(items), ItemPrices(items), ItemQuantities(items),
         ItemUrls(items), ItemImageUrls(items))
  }

  /** `view_item`: the viewed product's fields. */
  function TrackProductView(env: Env, queue: seq<Record>, p: Product, timestamp: string): seq<Record> {
    Push(env, queue, "view_item",
         ViewItem(p.id, p.name, p.price, ProductUrl(env, p.id), p.imageUrl, p.category), timestamp)
  }

  /** `cart` after an add: the new cart's snapshot, the added id, no deleted id. */
  function TrackAddToCart(env: Env, queue: seq<Record>, product: Product, quantity: int,
                          cart: seq<CartItem>, products: seq<Product>, timestamp: string): (r: seq<Record>)
    ensures env.hasWindow ==>
              && |r| == |queue| + 1 && r[..|queue|] == queue
              && r[|queue|].event == "cart"
              && r[|queue|].params == CartParams(env, cart, products, Some(product.id), None)
    ensures !env.hasWindow ==> r == queue
  {
    Push(env, queue, "cart", CartParams(env, cart, products, Some(product.id), None), timestamp)
  }

  /** `cart` after a removal: the new cart's snapshot, the deleted id, no added id. */
  function TrackRemoveFromCart(env: Env, queue: seq<Record>, product: Product,
                               cart: seq<CartItem>, products: seq<Product>, timestamp: string): (r: seq<Record>)
    ensures env.hasWindow ==>
              && |r| == |queue| + 1 && r[..|queue|] == queue
              && r[|queue|].event == "cart"
              && r[|queue|].params == CartParams(env, cart, products, None, Some(product.id))
    ensures !env.hasWindow ==> r == queue
  {
    Push(env, queue, "cart", CartParams(env, cart, products, None, Some(product.id)), timestamp)
  }

  /**
   * `buy`: the price is the total the caller passes, not recomputed from the items; the
   * quantity is the sum of the line quantities; the items are the joined cart lines.
   */
  function TrackPurchase(env: Env, queue: seq<Record>, cart: seq<CartItem>, products: seq<Product>,
                         total: int, timestamp: string): (r: seq<Record>)
    ensures env.hasWindow ==>
              && |r| == |queue| + 1 && r[..|queue|] == queue
              && r[|queue|].event == "buy"
              && r[|queue|].params.Buy?
              && r[|queue|].params.price == total
              && r[|queue|].params.quantity == LineQuantity(cart)
              && |r[|queue|].params.items| == |cart|
              && forall i :: 0 <= i < |cart| ==> r[|queue|].params.items[i] == ItemFor(env, cart[i], products)
    ensures !env.hasWindow ==> r == queue
  {
    Push(env, queue, "buy", Buy(total, LineQuantity(cart), Items(env, cart, products)), timestamp)
  }

  /** `search`: the keyword only. */
  function TrackSearch(env: Env, queue: seq<Record>, query: string, timestamp: string): seq<Record> {
    Push(env, queue, "search", Search(query), timestamp)
  }

  /** `login`: no fields; the user id argument is ignored. */
  function TrackLogin(env: Env, queue: seq<Record>, userId: string, timestamp: string): seq<Record> {
    Push(env, queue, "login", Login, timestamp)
  }

  /** `signup`: name, email and the registration date (the date part of the clock, supplied). */
  function TrackRegister(env: Env, queue: seq<Record>, userId: string, name: string, email: string,
                         signupDate: string, timestamp: string): seq<Record> {
    Push(env, queue, "signup", Signup(name, email, signupDate), timestamp)
  }

  /** Page views are captured by the tag itself: nothing is queued. */
  function TrackPageView(queue: seq<Record>, pageName: string): seq<Record> {
    queue
  }

  /** Replaced by the cart event: nothing is queued. */
  function TrackViewCart(queue: seq<Record>, itemCount: int, total: int): seq<Record> {
    queue
  }

  /** Replaced by the cart event: nothing is queued. */
  function TrackBeginCheckout(queue: seq<Record>, cart: seq<CartItem>, total: int): seq<Record> {
    queue
  }

  /** The three retired trackers leave the queue as it was, whatever their arguments. */
  lemma RetiredTrackersQueueNothing(queue: seq<Record>, pageName: string, itemCount: int, total: int, cart: seq<CartItem>)
    ensures TrackPageView(queue, pageName) == queue
    ensures TrackViewCart(queue, itemCount, total) == queue
    ensures TrackBeginCheckout(queue, cart, total) == queue
  {
  }
}
