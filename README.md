# Order and stock reconciliation of a CRM GraphQL server

This project models the order-mutation core of a sales CRM's GraphQL resolvers.
Sellers (`vendedor`) own clients (`Cliente`). Clients place orders (`Pedido`)
made of line items that draw on a shared product stock (`existencia`). The
model covers:

- the ownership rule: a record is usable only by the seller whose id is its `vendedor`;
- order creation (`nuevoPedido`): a read-only availability loop, then a loop of stock decrements;
- order update (`actualizarPedido`): a per-product delta against the order's current line items, with the same check-then-apply protocol;
- order deletion, and the client resolvers that share the ownership check.

The database becomes three maps in `Model.Db`:

- `stock`: product id to `existencia`;
- `clients`: client id to email and owning seller;
- `orders`: order id to seller, client and line items.

The current user (`ctx.usuario`) is an `Option<Id>` parameter of each call.

Files and modules:

- `model.dfy` (`Model`): the entities, the errors the resolvers throw, `Result` and `Outcome` (what a call returns together with the store it leaves).
- `ownership.dfy` (`Ownership`): the `vendedor == ctx.usuario.id` guard. It also holds `obtenerCliente` and `obtenerPedido`, the existence-then-owner lookups the mutations reuse.
- `ledger.dfy` (`Ledger`): phase 1 (checks) and phase 2 (stock writes) of creation and of update, as functions, with the lemmas about them.
- `resolvers.dfy` (`Resolvers`): each mutation resolver as one pure step `Db -> Outcome`. It also holds the lemmas about one call, and the store invariants (stock non-negative, every order has its client's seller while that client exists) proved for every reachable store: the seller invariant for calls with fresh client ids, non-negative stock also needing distinct line-item ids.
- `store.dfy` (`Server`): the class `Store`. Its `stock`, `clients` and `orders` fields are updated in place by one method per resolver. The two order resolvers run their phases as `while` loops in helper methods. Each method ensures it returns, and leaves behind, exactly what its step in `Resolvers` describes.

Behaviour of the code that the model keeps on purpose:

- A missing product, a missing old line item and a missing `ctx.usuario` each make the JavaScript throw a `TypeError`. They are modelled as the errors `ProductNotFound`, `ItemNotInOrder` and `Unauthenticated`, raised at the same point.
- Phase 1 checks each line item alone against the unchanged stock. With a product repeated in one order, phase 2 can drive its stock negative (`Ledger.DuplicateItemsOverdraw`). Non-negativity is therefore proved for line items with distinct product ids.
- Phase 2 of an update, with the line-346 comparison corrected to match by id (see "## Findings"), reads each product only when its quantity changes. If a product whose quantity goes down has been deleted from the catalog, the update throws part-way and keeps the stock writes made before (`Ledger.PartialWriteOnMissingProduct`). With the comparison as written, phase 2 throws at the first line item before any write. Failures in the ownership checks and in phase 1 change nothing.
- The update always loads `input.cliente` (line 323), even when the order is not moving to another client.
- A product present only in the old line items is not released.
- Deleting an order releases no stock.
- Deleting a client does not look at its orders: an order can outlive its client and keep naming it (`Resolvers.EliminarClienteOrphansOrder`). The seller invariant is therefore stated for orders whose client still exists.
- In the resolver code, only `nuevoCliente` checks that an email is unused. `actualizarCliente` can give a client another client's email (`Resolvers.ActualizarClienteCanDuplicateEmail`). A unique index in the `Cliente` schema would refuse that write at the database; the schemas are not part of this model.

Guarantees an order system might be expected to give that this code does not give; the model follows the code:

- `actualizarPedido` always loads `input.cliente`, so the client is not optional on update.
- Removing a line item in an update does not give its quantity back to the stock.
- A failure in phase 2 does not roll back the writes already made.
- `total` is stored as the input gives it; nothing derives it from the line items.
- Non-positive quantities are not rejected, so quantities are `int`.
- Resubmitting an order unchanged is a no-op only when no product repeats in it. `find` pairs every new line item with the first old one for its product, so `[p:3, p:5]` resubmitted against a stock of 10 leaves 8 (`Resolvers.ActualizarPedidoResubmitRepeated`).
- An order is not tied to its client for its lifetime: `eliminarCliente` leaves the client's orders in place.

## Model

| member | source | states |
|---|---|---|
| `Ownership.Authorize` | db/resolvers.js:319-321 | access is allowed exactly when a current user is present and is the owner; no user is `Unauthenticated`, another user is `NotOwner` |
| `Ownership.ObtenerCliente` | db/resolvers.js:57-66 | returns the client exactly when it exists and belongs to the current user; a missing client is `ClientNotFound`, another seller's is `NotOwner`, an existing one with no user is `Unauthenticated` |
| `Ownership.ObtenerPedido` | db/resolvers.js:82-92 | returns the order exactly when it exists and belongs to the current user; a missing order is `OrderNotFound`, another seller's is `NotOwner`, an existing one with no user is `Unauthenticated` |
| `Ledger.FindIndex` | db/resolvers.js:335 | `find` by id gives the first line item with that id, and none exactly when no line item has it |
| `Ledger.StockError` | db/resolvers.js:292-296 | one line item passes creation's phase 1 exactly when its product exists and holds at least the quantity; a missing product is `ProductNotFound` |
| `Ledger.CheckStock` | db/resolvers.js:291-297 | creation's phase 1 passes exactly when every line item's product exists and its quantity does not exceed that product's stock |
| `Ledger.CheckStockFirst` | db/resolvers.js:291-297 | the error phase 1 throws is that of the first failing line item |
| `Ledger.Reserved` | db/resolvers.js:298-303 | creation's phase 2 as a map over the catalog: every product keeps its key, stock minus the total ordered quantity (see `Ledger.ReservedExact`) |
| `Ledger.ReservedExact` | db/resolvers.js:298-303 | with distinct ids, phase 2 lowers each ordered product by exactly its quantity and leaves every other product's stock as it was |
| `Ledger.ReservedNonNegative` | db/resolvers.js:291-303 | with distinct ids and non-negative stock, stock stays non-negative after a passed phase 1 and phase 2 |
| `Ledger.DuplicateItemsOverdraw` | db/resolvers.js:294-301 | a product ordered twice with 3 against a stock of 5 passes phase 1 and ends at -1 |
| `Ledger.DeltaError` | db/resolvers.js:334-341 | one new line item passes update's phase 1 exactly when an old line item has its id and any raise is covered by an existing product's stock; no old line item is `ItemNotInOrder` |
| `Ledger.CheckDeltas` | db/resolvers.js:333-342 | update's phase 1 passes exactly when every new line item has an old one and any raise new − old is covered by an existing product's stock |
| `Ledger.CheckDeltasFirst` | db/resolvers.js:333-342 | the error update's phase 1 throws is that of the first failing line item |
| `Ledger.ApplyOne` | db/resolvers.js:345-356 | one pass of update's phase 2 keeps the catalog's keys; its reserve or release is stated in `Ledger.ApplyOneMatched`, and a pass after a throw changes nothing (`Ledger.ApplyDeltasAfterFailure`) |
| `Ledger.ApplyDeltas` | db/resolvers.js:344-357 | update's phase 2 over the new line items in order keeps the catalog's keys; exact effect in `Ledger.ApplyDeltasExact` and `Ledger.ApplyDeltasPerItem` |
| `Ledger.ApplyDeltasExact` | db/resolvers.js:344-357 | a completed phase 2 moves each product's stock by exactly minus its summed new − old |
| `Ledger.ApplyDeltasCompletes` | db/resolvers.js:344-357 | after phase 1 passes, phase 2 completes exactly when every product whose quantity changes is still in the catalog |
| `Ledger.ApplyDeltasPerItem` | db/resolvers.js:344-357 | with distinct ids, a raise reserves exactly new − old, a cut releases exactly old − new, and products outside the new line items (those only in the old order included) keep their stock |
| `Ledger.ApplyDeltasUntouched` | db/resolvers.js:344-357 | phase 2 never writes a product that no new line item names, whether or not it completes and whatever ids repeat: products only in the old order are not released |
| `Ledger.ApplyDeltasNonNegative` | db/resolvers.js:333-357 | with distinct ids and a passed phase 1, phase 2 never makes stock negative, whether or not it completes |
| `Ledger.ResubmitUnchanged` | db/resolvers.js:333-357 | resubmitting an order's own line items (distinct ids) passes phase 1 and leaves stock exactly as it was |
| `Ledger.ApplyDeltasAsWrittenFails` | db/resolvers.js:346-347 | with the comparison as written, phase 2 throws at the first new line item with no stock written, whenever the stored ids are ObjectIds |
| `Ledger.PartialWriteOnMissingProduct` | db/resolvers.js:344-357 | a reservation made for one line item stays when a later release hits a product missing from the catalog |
| `Resolvers.NuevoCliente` | db/resolvers.js:246-258 | registration never touches stock or orders, and a refused one changes nothing |
| `Resolvers.ActualizarCliente` | db/resolvers.js:259-270 | a client update never touches stock or orders, keeps the client's seller, and a refused one changes nothing |
| `Resolvers.EliminarCliente` | db/resolvers.js:271-281 | a client deletion never touches stock or orders, and a refused one changes nothing |
| `Resolvers.NuevoPedido` | db/resolvers.js:282-312 | creation never touches clients or the catalog's keys, changes nothing when refused, and a created order carries the current user as seller and the input's client |
| `Resolvers.ActualizarPedido` | db/resolvers.js:313-364 | an update never touches clients or the catalog's keys, leaves the orders alone when refused, and keeps the seller of the order it changes; phase 2 matches by id as at line 335 (line 346 corrected, see "## Findings") |
| `Resolvers.EliminarPedido` | db/resolvers.js:365-375 | deletion never touches stock or clients, and a refused one changes nothing |
| `Resolvers.NuevoPedidoAtomic` | db/resolvers.js:282-303 | creation succeeds exactly when the client exists, is the current user's and every line item passes phase 1; every failure leaves the whole store unchanged |
| `Resolvers.NuevoPedidoEffect` | db/resolvers.js:298-311 | a created order is the input's client and items under the current user, who owns the client; clients and products not ordered are unchanged and the only order written is the one at the assigned id, whatever products repeat; with distinct product ids each ordered product drops by exactly its quantity |
| `Resolvers.ActualizarPedidoGuards` | db/resolvers.js:313-342 | an update changes nothing and fails unless order and client both exist and belong to the current user; a phase-1 failure returns its error with the store unchanged |
| `Resolvers.ActualizarPedidoEffect` | db/resolvers.js:313-363 | a successful update keeps the order's seller (the current user, owner of the new client), stores the input's client and items, and leaves clients, other orders and every product outside the new line items as they were, whatever products repeat; with distinct product ids among the new line items, each product moves by exactly new − old |
| `Resolvers.ActualizarPedidoResubmit` | db/resolvers.js:331-359 | resubmitting an owned order's own line items, when they have distinct product ids, succeeds with zero net stock change |
| `Resolvers.ActualizarPedidoResubmitRepeated` | db/resolvers.js:333-357 | resubmitting `[p:3, p:5]` unchanged succeeds and moves a stock of 10 to 8, so the no-op needs distinct product ids |
| `Resolvers.EliminarPedidoEffect` | db/resolvers.js:365-375 | deletion removes the order exactly when `obtenerPedido` would return it, and never touches stock or clients |
| `Resolvers.ClientMutationsGuarded` | db/resolvers.js:259-281 | updating and deleting a client act exactly when `obtenerCliente` would return it, touch only that client and keep its seller |
| `Resolvers.EliminarClienteOrphansOrder` | db/resolvers.js:271-281 | deleting an owned client succeeds and leaves its order naming a client that no longer exists |
| `Resolvers.NuevoClienteEffect` | db/resolvers.js:246-258 | a client is stored under the current user exactly when its email is not registered and a user is present; a taken email is `DuplicateEmail` |
| `Resolvers.NuevoClienteKeepsEmailsUnique` | db/resolvers.js:246-258 | registration keeps clients' emails pairwise distinct |
| `Resolvers.ActualizarClienteCanDuplicateEmail` | db/resolvers.js:259-270 | an update can give a client another client's email |
| `Resolvers.RunKeepsOwnershipChain` | db/resolvers.js:246-375 | every mutation resolver keeps each order's seller equal to its client's while that client exists, for any line items, given a fresh id for a new client |
| `Resolvers.RunKeepsConsistent` | db/resolvers.js:246-375 | every mutation resolver keeps stock non-negative and each order's seller equal to its client's while that client exists, for distinct line-item ids and fresh client ids |
| `Resolvers.ReachableConsistent` | db/resolvers.js:246-375 | both invariants hold in every store reached by a sequence of calls with fresh client ids and distinct line-item ids; the seller invariant covers orders whose client still exists |
| `Resolvers.ReachableOwnershipChain` | db/resolvers.js:246-375 | the seller invariant holds in every store reached by calls with fresh client ids, including orders that repeat a product |
| `Server.Store.NuevoCliente` | db/resolvers.js:246-258 | the result and new store are those of `Resolvers.NuevoCliente` |
| `Server.Store.ActualizarCliente` | db/resolvers.js:259-270 | the result and new store are those of `Resolvers.ActualizarCliente` |
| `Server.Store.EliminarCliente` | db/resolvers.js:271-281 | the result and new store are those of `Resolvers.EliminarCliente` |
| `Server.Store.CheckAvailability` | db/resolvers.js:291-297 | the loop reads only and throws exactly the error of `Ledger.CheckStock` |
| `Server.Store.Reserve` | db/resolvers.js:298-303 | the decrement loop leaves each product at its old stock minus its total ordered quantity; clients and orders unchanged |
| `Server.Store.NuevoPedido` | db/resolvers.js:282-312 | the result and new store are those of `Resolvers.NuevoPedido` |
| `Server.Store.CheckDeltaAvailability` | db/resolvers.js:333-342 | the loop reads only and throws exactly the error of `Ledger.CheckDeltas` |
| `Server.Store.AdjustStock` | db/resolvers.js:345-356 | one pass of the loop, matched by id (line 346 corrected), leaves the stock, and throws the error, of `Ledger.ApplyOne` for that line item; clients and orders unchanged |
| `Server.Store.ApplyDeltaChanges` | db/resolvers.js:344-357 | the reserve/release loop, matched by id (line 346 corrected), leaves the stock `Ledger.ApplyDeltas` gives and throws its error; clients and orders unchanged |
| `Server.Store.ActualizarPedido` | db/resolvers.js:313-364 | the result and new store are those of `Resolvers.ActualizarPedido` |
| `Server.Store.EliminarPedido` | db/resolvers.js:365-375 | the result and new store are those of `Resolvers.EliminarPedido` |

## Findings

| source | as written | input that shows it | evidently intended | confidence | as-written member | corrected member |
|---|---|---|---|---|---|---|
| db/resolvers.js:346 | `find` compares each old id with `articulo.id.toString`, the method itself, which `==` turns into its source text, so no ObjectId ever matches and line 347 reads `cantidad` of undefined | an order with line items `[{P, 4}]` updated to `[{P, 2}]`: phase 1 passes, then phase 2 throws before writing, so the update always fails | match by id as at line 335, so that raises reserve and cuts release their difference | high; not executed | `Ledger.ApplyDeltasAsWrittenFails` (phase 2 with `Ledger.Matcher.ByToStringMethod`) | `Ledger.ApplyDeltasPerItem` (phase 2 with `Ledger.Matcher.ById`, used by `Resolvers.ActualizarPedido` and `Server.Store.ApplyDeltaChanges`) |

## Left out

- MongoDB and Mongoose (`findById`, `findOne`, `save`, `findOneAndUpdate`, `findOneAndDelete`): each becomes a map read or write. The ids the database assigns to new clients and orders are parameters. The database always issues a fresh ObjectId; the model does not force freshness, so with an id already in use `Resolvers.NuevoPedido` and `Resolvers.NuevoCliente` overwrite that record, and `Resolvers.NuevoPedidoEffect` and `Resolvers.NuevoClienteEffect` state the write as a map update at that id. Only the store invariants assume fresh client ids.
- `populate('cliente')` on returned orders: the model returns the order with its client id.
- Concurrency: each resolver is one sequential step, with no interleaving of requests. The race between the two phases, and any retry or compensation, are not modelled; the code has neither.
- Fields the code passes through without reading: the order's `total` and `estado`, and the client's name, company and phone. `total` is stored from the input, never computed.
- The text of error messages, including the product names they quote. Only the kind of error is modelled.
- Number width: `existencia` and `cantidad` are JavaScript numbers. The model uses unbounded integers, with no floating-point rounding.
- The other resolvers: user registration and login (`bcryptjs` hashing, `jwt` signing, `crearToken`), product CRUD, unscoped list queries, `obtenerClientesVendedor`, `obtenerPedidosEstado`, the `buscarProducto` text search, and the aggregation reports `obtenerMejoresClientes` and `obtenerMejoresVendedores`. They are reads or plain writes, or foreign database pipelines, outside the order/stock core.
- `console.log` and the dotenv configuration.
- The Mongoose schemas (`Cliente`, `Pedido`, `Producto`): their field types, required fields and any unique index are not part of this model. Only the checks the resolvers make are modelled.
