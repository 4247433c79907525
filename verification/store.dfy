/**
  The data the pages work on: catalog products (the `data` module), the cart
  lines the store hands back, and the actions the pages dispatch to the cart
  slice. The cart slice's reducer is not part of this model, so actions are
  plain values.
 */
module Store {

  datatype Option<T> = None | Some(value: T)

  /** Customer rating; only carried through, never computed with. */
  datatype Rating = Rating(rate: real, count: int)

  /** A catalog product; `price` is in integer cents. */
  datatype Product = Product(
    id: int,
    title: string,
    description: string,
    price: int,
    category: string,
    image: string,
    rating: Rating)

  /** The object `{ ...product, quantity }` that the pages put in an add action. */
  datatype ItemPayload = ItemPayload(
    id: int,
    title: string,
    description: string,
    price: int,
    category: string,
    image: string,
    rating: Rating,
    quantity: int)

  /** The fields of a cart line that the cart page and the navigation bar read. */
  datatype CartLine = CartLine(id: int, title: string, image: string, price: int, quantity: int)

  /** Actions created by the cart slice's action creators. */
  datatype Action =
    | AddToCart(item: ItemPayload)
    | UpdateQuantity(id: int, quantity: int)
    | RemoveFromCart(id: int)

  /** The product part of a payload: every field except `quantity`. */
  function ProductOf(item: ItemPayload): Product {
    Product(item.id, item.title, item.description, item.price, item.category, item.image, item.rating)
  }

  /** Object spread `{ ...product, quantity }`: all product fields, plus the quantity. */
  function WithQuantity(p: Product, quantity: int): (item: ItemPayload)
    ensures ProductOf(item) == p
    ensures item.quantity == quantity
  {
    ItemPayload(p.id, p.title, p.description, p.price, p.category, p.image, p.rating, quantity)
  }

  /** A payload is determined by its product part and its quantity. */
  lemma SpreadRoundTrip(item: ItemPayload)
    ensures WithQuantity(ProductOf(item), item.quantity) == item
  {
  }
}
