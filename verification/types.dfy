/** Records shared by the services and the store of the demo shop. */
module Types {

  /** A value that may be absent (a JavaScript `null`, or a storage key with nothing under it). */
  datatype Option<+T> = None | Some(value: T) {

    /** The value, or `default` when absent (the `x || default` idiom of the source). */
    function GetOr(default: T): T {
      match this
      case Some(v) => v
      case None => default
    }
  }

  /** The outcome of a call that either returns a value or throws a known error. */
  datatype Result<+T, +E> = Ok(value: T) | Err(error: E)

  /** A catalog entry. Prices are whole yen; neither price nor stock is validated. */
  datatype Product = Product(
    id: string,
    name: string,
    price: int,
    description: string,
    imageUrl: string,
    category: string,
    stock: int)

  /** One cart line; `addedAt` is the caller-supplied clock reading of the first add. */
  datatype CartItem = CartItem(productId: string, quantity: int, addedAt: int)

  /** The password-free user record held by the session and returned to callers. */
  datatype User = User(id: string, email: string, name: string, createdAt: int)

  /** A roster entry: a user together with the password, which is compared verbatim. */
  datatype StoredUser = StoredUser(
    id: string,
    email: string,
    password: string,
    name: string,
    createdAt: int)

  /** The roster entry with its password dropped. */
  function WithoutPassword(u: StoredUser): User {
    User(u.id, u.email, u.name, u.createdAt)
  }
}
