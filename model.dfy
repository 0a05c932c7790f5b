/** The entities of the sales backend's order engine, as values: ids, order
    line items, orders, clients, the three collections the resolvers read and
    write, and the failures the resolvers throw. */
module Model {

  /** A database id (an ObjectId rendered as a string) or a seller id. */
  type Id = string

  datatype Option<+T> = None | Some(value: T)

  /** One line of an order (`pedido`): a product id and a quantity (`cantidad`). */
  datatype Item = Item(id: Id, cantidad: int)

  /** An order (`Pedido`): the seller who owns it, its client and its line items. */
  datatype Order = Order(vendedor: Id, cliente: Id, pedido: seq<Item>)

  /** A client (`Cliente`): its email, unique at registration, and its seller. */
  datatype Client = Client(email: string, vendedor: Id)

  /** What the resolvers throw. */
  datatype Error =
    | Unauthenticated               // no `ctx.usuario`: reading its `id` throws
    | ClientNotFound
    | OrderNotFound
    | NotOwner                      // the `vendedor` is not the current user
    | ProductNotFound(product: Id)  // `Producto.findById` gave null and its `existencia` is read
    | InsufficientStock(product: Id)
    | ItemNotInOrder(product: Id)   // `find` gave undefined and its `cantidad` is read
    | DuplicateEmail

  datatype Result<+T> = Ok(value: T) | Err(error: Error)

  /** The store: stock (`existencia`) per product id, clients and orders by id. */
  datatype Db = Db(stock: map<Id, int>, clients: map<Id, Client>, orders: map<Id, Order>)

  /** What a resolver returns, together with the store it leaves behind. */
  datatype Outcome<+T> = Outcome(ret: Result<T>, db: Db)
}
