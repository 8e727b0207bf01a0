/** The records the storefront pages exchange with the backend. */
module Types {

  /** A catalogue product. `price` is in integer minor units (cents). */
  datatype Product = Product(
    id: string,
    name: string,
    price: int,
    currency: string,
    inStock: bool,
    categoryId: string)

  datatype Category = Category(id: string, name: string)

  /** An order as the backend returns it after creation; the client reads only these two fields. */
  datatype Order = Order(id: string, totalAmount: int)
}
