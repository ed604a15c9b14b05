/**
 * The browser's key-value storage as the core sees it: one field per key, `None` when
 * nothing is stored under the key. JSON (de)serialization is not modelled; a malformed
 * value reads as `None`, exactly as an absent one does.
 */
module LocalStorage {
  import opened Types

  datatype Storage = Storage(
    products: Option<seq<Product>>,   // key 'karte_demo_products'
    users: Option<seq<StoredUser>>,   // key 'karte_demo_users'
    currentUser: Option<User>,        // key 'karte_demo_current_user'
    cart: Option<seq<CartItem>>)      // key 'karte_demo_cart'

  /** A browser that has never run the shop. */
  const Blank := Storage(None, None, None, None)
}
