/**
 * The client-side store: the cart (written through to storage on every mutation), the
 * current user and the UI flags. Cart actions re-read the catalog and queue a cart
 * event with a snapshot of the whole new cart. Every action runs atomically.
 */
module Store {
  import opened Types
  import opened LocalStorage
  import opened Seqs
  import PS = ProductService
  import Auth = AuthService
  import opened Analytics

  datatype Shop = Shop(
    env: Env,
    storage: Storage,
    productCache: seq<Product>,
    cart: seq<CartItem>,
    user: Option<User>,
    isLoading: bool,
    error: Option<Auth.AuthError>,
    dataLayer: seq<Record>)

  /** The catalog the services currently see. */
  function Catalog(s: Shop): seq<Product> {
    PS.Live(s.storage, s.productCache)
  }

  /**
   * Page load: the catalog service boots (persisting the seed list if needed), then the
   * store takes the persisted cart, or an empty one, with nobody signed in.
   */
  function Start(env: Env, st: Storage, seed: seq<Product>): (s: Shop)
    ensures s.cart == st.cart.GetOr([]) && s.storage.cart == st.cart
    ensures s.storage.products.Some? && Catalog(s) == s.productCache
    ensures s.user.None? && !s.isLoading && s.error.None? && s.dataLayer == []
    ensures s.storage == PS.Boot(st, seed).storage && s.productCache == PS.Boot(st, seed).cache
    ensures s.env == env
  {
    var boot := PS.Boot(st, seed);
    Shop(env, boot.storage, boot.cache, st.cart.GetOr([]), None, false, None, [])
  }

  /**
   * A first visit: the seed list is persisted and shown, the cart is empty, and no other
   * key is written.
   */
  lemma FirstVisit(env: Env, seed: seq<Product>)
    ensures Start(env, Blank, seed).storage == Blank.(products := Some(seed))
    ensures Catalog(Start(env, Blank, seed)) == seed && Start(env, Blank, seed).cart == []
  {
  }

  predicate HasLine(cart: seq<CartItem>, id: string) {
    exists i :: 0 <= i < |cart| && cart[i].productId == id
  }

  /** At most one line per product. */
  ghost predicate UniqueLines(cart: seq<CartItem>) {
    forall i, j :: 0 <= i < j < |cart| ==> cart[i].productId != cart[j].productId
  }

  ghost predicate PositiveQuantities(cart: seq<CartItem>) {
    forall i :: 0 <= i < |cart| ==> cart[i].quantity > 0
  }

  /**
   * The cart after adding `quantity` of product `id`: an existing line accumulates the
   * quantity (length and other lines unchanged); otherwise one line is appended.
   */
  function AddLine(cart: seq<CartItem>, id: string, quantity: int, now: int): (r: seq<CartItem>)
    ensures HasLine(cart, id) ==>
              && |r| == |cart|
              && forall i :: 0 <= i < |cart| ==>
                   if cart[i].productId == id
                   then r[i].productId == id && r[i].addedAt == cart[i].addedAt
                        && r[i].quantity == cart[i].quantity + quantity
                   else r[i] == cart[i]
    ensures !HasLine(cart, id) ==>
              && |r| == |cart| + 1
              && r[..|cart|] == cart
              && r[|cart|] == CartItem(id, quantity, now)
  {
    if HasLine(cart, id) then
      seq(|cart|, i requires 0 <= i < |cart| =>
            if cart[i].productId == id then cart[i].(quantity := cart[i].quantity + quantity) else cart[i])
    else cart + [CartItem(id, quantity, now)]
  }

  lemma AddLineKeepsInvariants(cart: seq<CartItem>, id: string, quantity: int, now: int)
    ensures UniqueLines(cart) ==> UniqueLines(AddLine(cart, id, quantity, now))
    ensures PositiveQuantities(cart) && quantity > 0 ==> PositiveQuantities(AddLine(cart, id, quantity, now))
  {
  }

  function LineIsNot(id: string): CartItem -> bool {
    (line: CartItem) => line.productId != id
  }

  /** The lines of other products, in cart order; an absent id leaves the cart as it was. */
  function RemoveLines(cart: seq<CartItem>, id: string): (r: seq<CartItem>)
    ensures IsSubseq(r, cart)
    ensures forall line :: multiset(r)[line] == if line.productId != id then multiset(cart)[line] else 0
    ensures !HasLine(r, id)
    ensures !HasLine(cart, id) ==> r == cart
  {
    if !HasLine(cart, id) then FilterKeepsAll(cart, LineIsNot(id)); Filter(cart, LineIsNot(id))
    else
      var r := Filter(cart, LineIsNot(id));
      assert forall i :: 0 <= i < |r| ==> r[i] in r;
      r
  }

  /** Subsequences keep the at-most-one-line-per-product and positive-quantity invariants. */
  lemma {:induction false} SubseqKeepsInvariants(a: seq<CartItem>, b: seq<CartItem>)
    requires IsSubseq(a, b)
    ensures UniqueLines(b) ==> UniqueLines(a)
    ensures PositiveQuantities(b) ==> PositiveQuantities(a)
    decreases |b|
  {
    if |a| > 0 {
      assert forall j :: 1 <= j < |b| ==> b[j] == b[1..][j - 1];
      if a[0] == b[0] && IsSubseq(a[1..], b[1..]) {
        SubseqKeepsInvariants(a[1..], b[1..]);
        SubseqMembers(a[1..], b[1..]);
        assert forall j :: 1 <= j < |a| ==> a[j] == a[1..][j - 1];
        if UniqueLines(b) {
          forall j | 1 <= j < |a|
            ensures a[0].productId != a[j].productId
          {
            assert a[j] in a[1..];
            var m :| 0 <= m < |b[1..]| && b[1..][m] == a[j];
            assert b[m + 1] == a[j];
          }
        }
      } else {
        SubseqKeepsInvariants(a, b[1..]);
      }
    }
  }

  lemma {:induction false} SubseqMembers<T>(a: seq<T>, b: seq<T>)
    requires IsSubseq(a, b)
    ensures forall x :: x in a ==> x in b
    decreases |b|
  {
    if |a| > 0 {
      if a[0] == b[0] && IsSubseq(a[1..], b[1..]) {
        SubseqMembers(a[1..], b[1..]);
        assert a == [a[0]] + a[1..];
        assert b == [b[0]] + b[1..];
      } else {
        SubseqMembers(a, b[1..]);
        assert b == [b[0]] + b[1..];
      }
    }
  }

  /**
   * Every line of product `id` gets exactly `quantity`; every other line is unchanged,
   * and no line is ever added for an absent id.
   */
  function SetQuantity(cart: seq<CartItem>, id: string, quantity: int): (r: seq<CartItem>)
    ensures |r| == |cart|
    ensures forall i :: 0 <= i < |cart| ==>
              if cart[i].productId == id
              then r[i].productId == id && r[i].addedAt == cart[i].addedAt && r[i].quantity == quantity
              else r[i] == cart[i]
    ensures HasLine(r, id) <==> HasLine(cart, id)
  {
    seq(|cart|, i requires 0 <= i < |cart| =>
          if cart[i].productId == id then cart[i].(quantity := quantity) else cart[i])
  }

  /**
   * `addToCart`: the new cart is persisted and adopted, the catalog is re-read, and a
   * cart event with the new cart and the added id is queued.
   */
  function AddToCart(s: Shop, product: Product, quantity: int, now: int, timestamp: string): (r: Shop)
    ensures r.cart == AddLine(s.cart, product.id, quantity, now)
    ensures r.storage == s.storage.(cart := Some(r.cart))
    ensures Catalog(r) == Catalog(s)
    ensures r.dataLayer == TrackAddToCart(s.env, s.dataLayer, product, quantity, r.cart, Catalog(s), timestamp)
    ensures r.(cart := s.cart, storage := s.storage, productCache := s.productCache, dataLayer := s.dataLayer) == s
  {
    var newCart := AddLine(s.cart, product.id, quantity, now);
    var st := s.storage.(cart := Some(newCart));
    var all := PS.GetProducts(st, s.productCache);
    s.(storage := st, cart := newCart, productCache := all.cache,
       dataLayer := TrackAddToCart(s.env, s.dataLayer, product, quantity, newCart, all.value, timestamp))
  }

  /**
   * `removeFromCart`: the product is looked up first; the filtered cart is persisted and
   * adopted; a cart event with the deleted id is queued only when the product exists.
   */
  function RemoveFromCart(s: Shop, id: string, timestamp: string): (r: Shop)
    ensures r.cart == RemoveLines(s.cart, id)
    ensures r.storage == s.storage.(cart := Some(r.cart))
    ensures Catalog(r) == Catalog(s)
    ensures PS.Find(Catalog(s), id).None? ==> r.dataLayer == s.dataLayer
    ensures PS.Find(Catalog(s), id).Some? ==>
              r.dataLayer == TrackRemoveFromCart(s.env, s.dataLayer, PS.Find(Catalog(s), id).value,
                                                 r.cart, Catalog(s), timestamp)
    ensures r.(cart := s.cart, storage := s.storage, productCache := s.productCache, dataLayer := s.dataLayer) == s
  {
    var got := PS.GetProduct(s.storage, s.productCache, id);
    var newCart := RemoveLines(s.cart, id);
    var st := s.storage.(cart := Some(newCart));
    match got.value
    case None => s.(storage := st, productCache := got.cache, cart := newCart)
    case Some(p) =>
      var all := PS.GetProducts(st, got.cache);
      s.(storage := st, productCache := all.cache, cart := newCart,
         dataLayer := TrackRemoveFromCart(s.env, s.dataLayer, p, newCart, all.value, timestamp))
  }

  /**
   * `updateQuantity`: zero or less is a removal, with all of its effects. Otherwise the
   * quantity is set, persisted and adopted; the catalog is re-read and nothing is queued.
   */
  function UpdateQuantity(s: Shop, id: string, quantity: int, timestamp: string): (r: Shop)
    ensures quantity <= 0 ==> r == RemoveFromCart(s, id, timestamp)
    ensures quantity > 0 ==>
              && r.cart == SetQuantity(s.cart, id, quantity)
              && r.storage == s.storage.(cart := Some(r.cart))
              && Catalog(r) == Catalog(s)
              && r.dataLayer == s.dataLayer
              && r.(cart := s.cart, storage := s.storage, productCache := s.productCache) == s
  {
    if quantity <= 0 then RemoveFromCart(s, id, timestamp)
    else
      var newCart := SetQuantity(s.cart, id, quantity);
      var st := s.storage.(cart := Some(newCart));
      s.(storage := st, cart := newCart, productCache := PS.GetProducts(st, s.productCache).cache)
  }

  /** `clearCart`: the persisted and the in-memory cart are both emptied; nothing is queued. */
  function ClearCart(s: Shop): (r: Shop)
    ensures r.cart == [] && r.storage.cart == Some([])
    ensures r.(cart := s.cart, storage := s.storage) == s && r.storage.(cart := s.storage.cart) == s.storage
  {
    s.(storage := s.storage.(cart := Some([])), cart := [])
  }

  /** The value of one line at the live price, 0 when no product has its id. */
  function LineValue(line: CartItem, products: seq<Product>): int {
    match PS.Find(products, line.productId)
    case None => 0
    case Some(p) => p.price * line.quantity
  }

  /** The reference total: the sum of the line values in cart order. */
  function ResolvedTotal(cart: seq<CartItem>, products: seq<Product>): int
    decreases |cart|
  {
    if |cart| == 0 then 0 else LineValue(cart[0], products) + ResolvedTotal(cart[1..], products)
  }

  lemma {:induction false} ResolvedTotalAppend(cart: seq<CartItem>, line: CartItem, products: seq<Product>)
    ensures ResolvedTotal(cart + [line], products) == ResolvedTotal(cart, products) + LineValue(line, products)
    decreases |cart|
  {
    if |cart| > 0 {
      assert (cart + [line])[1..] == cart[1..] + [line];
      ResolvedTotalAppend(cart[1..], line, products);
    }
  }

  /**
   * `getCartTotal`: walks the cart, resolving each line against the catalog at the
   * moment of the call (so the current price counts, not the price when added) and
   * skipping lines whose product is gone. Each lookup refreshes the service's copy.
   */
  method GetCartTotal(s: Shop) returns (total: int, r: Shop)
    ensures total == ResolvedTotal(s.cart, Catalog(s))
    ensures r == if |s.cart| == 0 then s else s.(productCache := Catalog(s))
  {
    var live := Catalog(s);
    total := 0;
    var i := 0;
    while i < |s.cart|
      invariant 0 <= i <= |s.cart|
      invariant total == ResolvedTotal(s.cart[..i], live)
    {
      var line := s.cart[i];
      // Storage does not change during the walk, so every lookup sees the same list.
      var got := PS.GetProduct(s.storage, s.productCache, line.productId);
      if got.value.Some? {
        total := total + got.value.value.price * line.quantity;
      }
      assert s.cart[..i + 1] == s.cart[..i] + [line];
      ResolvedTotalAppend(s.cart[..i], line, live);
      i := i + 1;
    }
    assert s.cart[..i] == s.cart;
    // Any lookup made adopts the persisted list as the service's copy.
    r := if |s.cart| == 0 then s else s.(productCache := live);
  }

  /** A cart line together with the product it resolves to (`{ ...item, product }`). */
  datatype ResolvedLine = ResolvedLine(productId: string, quantity: int, addedAt: int, product: Product)

  function Attach(line: CartItem, p: Product): ResolvedLine {
    ResolvedLine(line.productId, line.quantity, line.addedAt, p)
  }

  function Detach(r: ResolvedLine): CartItem {
    CartItem(r.productId, r.quantity, r.addedAt)
  }

  function DetachAll(rs: seq<ResolvedLine>): seq<CartItem> {
    seq(|rs|, i requires 0 <= i < |rs| => Detach(rs[i]))
  }

  /** One line joined with its product, or nothing when no product has its id. */
  function Join1(line: CartItem, products: seq<Product>): seq<ResolvedLine> {
    match PS.Find(products, line.productId)
    case None => []
    case Some(p) => [Attach(line, p)]
  }

  lemma DetachAllAppend(a: seq<ResolvedLine>, b: seq<ResolvedLine>)
    ensures DetachAll(a + b) == DetachAll(a) + DetachAll(b)
  {
  }

  /** The reference join: each line whose product exists, with that product, in cart order. */
  function ResolvedLines(cart: seq<CartItem>, products: seq<Product>): seq<ResolvedLine>
    decreases |cart|
  {
    if |cart| == 0 then [] else Join1(cart[0], products) + ResolvedLines(cart[1..], products)
  }

  lemma {:induction false} ResolvedLinesAppend(cart: seq<CartItem>, line: CartItem, products: seq<Product>)
    ensures ResolvedLines(cart + [line], products)
            == ResolvedLines(cart, products) + Join1(line, products)
    decreases |cart|
  {
    if |cart| > 0 {
      assert (cart + [line])[1..] == cart[1..] + [line];
      ResolvedLinesAppend(cart[1..], line, products);
    }
  }

  function ResolvesIn(products: seq<Product>): CartItem -> bool {
    (line: CartItem) => PS.Find(products, line.productId).Some?
  }

  /**
   * The joined lines are exactly the resolvable cart lines, in cart order, each with the
   * first catalog product carrying its id.
   */
  lemma {:induction false} ResolvedLinesAreResolvableLines(cart: seq<CartItem>, products: seq<Product>)
    ensures DetachAll(ResolvedLines(cart, products)) == Filter(cart, ResolvesIn(products))
    decreases |cart|
  {
    if |cart| > 0 {
      ResolvedLinesAreResolvableLines(cart[1..], products);
      var here := Join1(cart[0], products);
      var rest := ResolvedLines(cart[1..], products);
      DetachAllAppend(here, rest);
      assert DetachAll(here) == if ResolvesIn(products)(cart[0]) then [cart[0]] else [];
      FilterCons(cart, ResolvesIn(products));
    }
  }

  /** Each joined line carries the first catalog product with its id. */
  lemma {:induction false} ResolvedLinesCarryTheirProduct(cart: seq<CartItem>, products: seq<Product>)
    ensures forall k :: 0 <= k < |ResolvedLines(cart, products)| ==>
              PS.Find(products, ResolvedLines(cart, products)[k].productId)
                == Some(ResolvedLines(cart, products)[k].product)
    decreases |cart|
  {
    if |cart| > 0 {
      ResolvedLinesCarryTheirProduct(cart[1..], products);
      var here := Join1(cart[0], products);
      var rest := ResolvedLines(cart[1..], products);
      assert forall k :: 0 <= k < |rest| ==> (here + rest)[|here| + k] == rest[k];
    }
  }

  /** The checkout total is the sum of price times quantity over the joined lines. */
  lemma {:induction false} TotalOverResolvedLines(cart: seq<CartItem>, products: seq<Product>)
    ensures ResolvedTotal(cart, products) == SumResolved(ResolvedLines(cart, products))
    decreases |cart|
  {
    if |cart| > 0 {
      TotalOverResolvedLines(cart[1..], products);
      var here := Join1(cart[0], products);
      SumResolvedAppend(here, ResolvedLines(cart[1..], products));
    }
  }

  function SumResolved(rs: seq<ResolvedLine>): int
    decreases |rs|
  {
    if |rs| == 0 then 0 else rs[0].product.price * rs[0].quantity + SumResolved(rs[1..])
  }

  lemma {:induction false} SumResolvedAppend(a: seq<ResolvedLine>, b: seq<ResolvedLine>)
    ensures SumResolved(a + b) == SumResolved(a) + SumResolved(b)
    decreases |a|
  {
    if |a| > 0 {
      assert (a + b)[1..] == a[1..] + b;
      SumResolvedAppend(a[1..], b);
    } else {
      assert a + b == b;
    }
  }

  /**
   * `getCartItems`: the cart lines whose product resolves in the current catalog, in
   * cart order, each joined with its product. Each lookup refreshes the service's copy.
   */
  method GetCartItems(s: Shop) returns (items: seq<ResolvedLine>, r: Shop)
    ensures items == ResolvedLines(s.cart, Catalog(s))
    ensures r == if |s.cart| == 0 then s else s.(productCache := Catalog(s))
  {
    var live := Catalog(s);
    items := [];
    var i := 0;
    while i < |s.cart|
      invariant 0 <= i <= |s.cart|
      invariant items == ResolvedLines(s.cart[..i], live)
    {
      var line := s.cart[i];
      // Storage does not change during the walk, so every lookup sees the same list.
      var got := PS.GetProduct(s.storage, s.productCache, line.productId);
      if got.value.Some? {
        items := items + [Attach(line, got.value.value)];
      }
      assert s.cart[..i + 1] == s.cart[..i] + [line];
      ResolvedLinesAppend(s.cart[..i], line, live);
      i := i + 1;
    }
    assert s.cart[..i] == s.cart;
    // Any lookup made adopts the persisted list as the service's copy.
    r := if |s.cart| == 0 then s else s.(productCache := live);
  }

  /**
   * The price a cart event reports for a cart is the checkout total of that cart: a
   * line with no product is priced 0 in the event and skipped by the total.
   */
  lemma {:induction false} CartEventPriceIsCartTotal(env: Env, cart: seq<CartItem>, products: seq<Product>)
    ensures TotalPrice(Items(env, cart, products)) == ResolvedTotal(cart, products)
    decreases |cart|
  {
    if |cart| > 0 {
      CartEventPriceIsCartTotal(env, cart[1..], products);
      assert Items(env, cart, products)[1..] == Items(env, cart[1..], products);
    }
  }

  /** The store's user is the persisted session. */
  predicate SessionInSync(s: Shop) {
    s.user == s.storage.currentUser
  }

  /**
   * `login`: on success the session and the store hold the first matching roster entry
   * without its password, the error is cleared and a login event is queued; on failure
   * the error is recorded and the user, the storage and the queue stay as they were.
   */
  function Login(s: Shop, email: string, password: string, timestamp: string): (r: Shop)
    ensures Auth.Login(s.storage, email, password).result.Ok? ==>
              && r.user.Some? && SessionInSync(r)
              && r.storage == Auth.Login(s.storage, email, password).storage
              && r.error.None?
              && r.dataLayer == TrackLogin(s.env, s.dataLayer, r.user.value.id, timestamp)
    ensures Auth.Login(s.storage, email, password).result.Err? ==>
              && r.user == s.user && r.storage == s.storage && r.dataLayer == s.dataLayer
              && r.error == Some(Auth.InvalidCredentials)
    ensures !r.isLoading
    ensures r.(storage := s.storage, user := s.user, isLoading := s.isLoading, error := s.error,
               dataLayer := s.dataLayer) == s
  {
    var rep := Auth.Login(s.storage, email, password);
    match rep.result
    case Ok(u) =>
      s.(storage := rep.storage, user := Some(u), isLoading := false, error := None,
         dataLayer := TrackLogin(s.env, s.dataLayer, u.id, timestamp))
    case Err(e) => s.(storage := rep.storage, isLoading := false, error := Some(e))
  }

  /**
   * `register`: on success the new user is both the session and the store's user and a
   * signup event is queued; a duplicate email records the error and changes nothing else.
   */
  function Register(s: Shop, email: string, password: string, name: string, now: nat,
                    signupDate: string, timestamp: string): (r: Shop)
    ensures Auth.Register(s.storage, email, password, name, now).result.Ok? ==>
              && r.user.Some? && SessionInSync(r)
              && r.user.value.email == email && r.user.value.name == name
              && r.storage == Auth.Register(s.storage, email, password, name, now).storage
              && r.error.None?
              && r.dataLayer == TrackRegister(s.env, s.dataLayer, r.user.value.id, name, email, signupDate, timestamp)
    ensures Auth.Register(s.storage, email, password, name, now).result.Err? ==>
              && r.user == s.user && r.storage == s.storage && r.dataLayer == s.dataLayer
              && r.error == Some(Auth.DuplicateEmail)
    ensures !r.isLoading
    ensures r.(storage := s.storage, user := s.user, isLoading := s.isLoading, error := s.error,
               dataLayer := s.dataLayer) == s
  {
    var rep := Auth.Register(s.storage, email, password, name, now);
    match rep.result
    case Ok(u) =>
      s.(storage := rep.storage, user := Some(u), isLoading := false, error := None,
         dataLayer := TrackRegister(s.env, s.dataLayer, u.id, name, email, signupDate, timestamp))
    case Err(e) => s.(storage := rep.storage, isLoading := false, error := Some(e))
  }

  /** `logout`: the persisted session and the store's user are both cleared. */
  function Logout(s: Shop): (r: Shop)
    ensures r.user.None? && SessionInSync(r)
    ensures r.storage == Auth.Logout(s.storage) && r.(user := s.user, storage := s.storage) == s
  {
    s.(storage := Auth.Logout(s.storage), user := None)
  }

  /** `checkAuth`: the store adopts the persisted session. */
  function CheckAuth(s: Shop): (r: Shop)
    ensures SessionInSync(r) && r.(user := s.user) == s
  {
    s.(user := Auth.GetCurrentUser(s.storage))
  }

  /** A cart action a page can trigger, with the clock readings it needs. */
  datatype CartCall =
    | AddCall(product: Product, quantity: int, now: int, timestamp: string)
    | RemoveCall(id: string, timestamp: string)
    | UpdateCall(id: string, quantity: int, timestamp: string)
    | ClearCall

  function ApplyCart(s: Shop, c: CartCall): Shop {
    match c
    case AddCall(product, quantity, now, timestamp) => AddToCart(s, product, quantity, now, timestamp)
    case RemoveCall(id, timestamp) => RemoveFromCart(s, id, timestamp)
    case UpdateCall(id, quantity, timestamp) => UpdateQuantity(s, id, quantity, timestamp)
    case ClearCall => ClearCart(s)
  }

  function RunCart(s: Shop, calls: seq<CartCall>): Shop
    decreases |calls|
  {
    if |calls| == 0 then s else RunCart(ApplyCart(s, calls[0]), calls[1..])
  }

  /** Adds only ever of a positive quantity, as the pages issue them. */
  ghost predicate PositiveAdds(calls: seq<CartCall>) {
    forall i :: 0 <= i < |calls| && calls[i].AddCall? ==> calls[i].quantity > 0
  }

  /** One line per product, every quantity positive. */
  ghost predicate CartOk(cart: seq<CartItem>) {
    UniqueLines(cart) && PositiveQuantities(cart)
  }

  /** The action wrote its cart through and left the session alone. */
  ghost predicate CartStepOk(s: Shop, r: Shop) {
    && CartOk(r.cart)
    && r.storage.cart == Some(r.cart)
    && r.user == s.user && r.storage.currentUser == s.storage.currentUser
  }

  lemma AddKeepsCartOk(s: Shop, product: Product, quantity: int, now: int, timestamp: string)
    requires CartOk(s.cart) && quantity > 0
    ensures CartStepOk(s, AddToCart(s, product, quantity, now, timestamp))
  {
    AddLineKeepsInvariants(s.cart, product.id, quantity, now);
  }

  lemma RemoveKeepsCartOk(s: Shop, id: string, timestamp: string)
    requires CartOk(s.cart)
    ensures CartStepOk(s, RemoveFromCart(s, id, timestamp))
  {
    SubseqKeepsInvariants(RemoveLines(s.cart, id), s.cart);
  }

  lemma UpdateKeepsCartOk(s: Shop, id: string, quantity: int, timestamp: string)
    requires CartOk(s.cart)
    ensures CartStepOk(s, UpdateQuantity(s, id, quantity, timestamp))
  {
    if quantity <= 0 {
      RemoveKeepsCartOk(s, id, timestamp);
    }
  }

  lemma ApplyCartKeepsInvariants(s: Shop, c: CartCall)
    requires CartOk(s.cart)
    requires c.AddCall? ==> c.quantity > 0
    ensures CartStepOk(s, ApplyCart(s, c))
  {
    match c
    case AddCall(product, quantity, now, timestamp) => AddKeepsCartOk(s, product, quantity, now, timestamp);
    case RemoveCall(id, timestamp) => RemoveKeepsCartOk(s, id, timestamp);
    case UpdateCall(id, quantity, timestamp) => UpdateKeepsCartOk(s, id, quantity, timestamp);
    case ClearCall =>
  }

  /** Every cart action keeps at most one line per product, whatever its quantity. */
  lemma ApplyCartKeepsUniqueLines(s: Shop, c: CartCall)
    requires UniqueLines(s.cart)
    ensures UniqueLines(ApplyCart(s, c).cart)
  {
    match c
    case AddCall(product, quantity, now, timestamp) =>
      AddLineKeepsInvariants(s.cart, product.id, quantity, now);
    case RemoveCall(id, timestamp) =>
      SubseqKeepsInvariants(RemoveLines(s.cart, id), s.cart);
    case UpdateCall(id, quantity, timestamp) =>
      if quantity <= 0 {
        SubseqKeepsInvariants(RemoveLines(s.cart, id), s.cart);
      }
    case ClearCall =>
  }

  /** Any sequence of cart actions, with any quantities, keeps one line per product. */
  lemma {:induction false} RunCartKeepsUniqueLines(s: Shop, calls: seq<CartCall>)
    requires UniqueLines(s.cart)
    ensures UniqueLines(RunCart(s, calls).cart)
    decreases |calls|
  {
    if |calls| > 0 {
      ApplyCartKeepsUniqueLines(s, calls[0]);
      RunCartKeepsUniqueLines(ApplyCart(s, calls[0]), calls[1..]);
    }
  }

  /**
   * Any sequence of cart actions (adds of positive quantities) keeps one line per
   * product with positive quantities, leaves the session alone, and after at least
   * one action the persisted cart equals the in-memory cart.
   */
  lemma {:induction false} RunCartKeepsInvariants(s: Shop, calls: seq<CartCall>)
    requires CartOk(s.cart)
    requires PositiveAdds(calls)
    ensures var r := RunCart(s, calls);
            && CartOk(r.cart)
            && (|calls| > 0 ==> r.storage.cart == Some(r.cart))
            && r.user == s.user && r.storage.currentUser == s.storage.currentUser
    decreases |calls|
  {
    if |calls| > 0 {
      ApplyCartKeepsInvariants(s, calls[0]);
      assert PositiveAdds(calls[1..]) by {
        forall i | 0 <= i < |calls[1..]| && calls[1..][i].AddCall?
          ensures calls[1..][i].quantity > 0
        {
          assert calls[1..][i] == calls[i + 1];
        }
      }
      RunCartKeepsInvariants(ApplyCart(s, calls[0]), calls[1..]);
    }
  }
}
