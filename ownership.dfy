/** The ownership rule every scoped resolver applies: the record's `vendedor`
    must be the current user's id, and a missing user is always refused. */
module Ownership {
  import opened Model

  /** The check `vendedor.toString() !== ctx.usuario.id.toString()`. */
  function Authorize(owner: Id, ctx: Option<Id>): (r: Option<Error>)
    ensures r.None? <==> ctx == Some(owner)
    ensures ctx.None? ==> r == Some(Unauthenticated)
    ensures ctx.Some? && ctx.value != owner ==> r == Some(NotOwner)
  {
    if ctx.None? then Some(Unauthenticated)
    else if owner != ctx.value then Some(NotOwner)
    else None
  }

  /** `obtenerCliente`: the client must exist and belong to the current user. */
  function ObtenerCliente(db: Db, ctx: Option<Id>, id: Id): (r: Result<Client>)
    ensures r.Ok? <==> id in db.clients && ctx == Some(db.clients[id].vendedor)
    ensures r.Ok? ==> r.value == db.clients[id]
    ensures id !in db.clients ==> r == Err(ClientNotFound)
    ensures id in db.clients && ctx.Some? && ctx.value != db.clients[id].vendedor ==> r == Err(NotOwner)
    ensures id in db.clients && ctx.None? ==> r == Err(Unauthenticated)
  {
    if id !in db.clients then Err(ClientNotFound)
    else match Authorize(db.clients[id].vendedor, ctx)
      case Some(e) => Err(e)
      case None => Ok(db.clients[id])
  }

  /** `obtenerPedido`: the order must exist and belong to the current user. */
  function ObtenerPedido(db: Db, ctx: Option<Id>, id: Id): (r: Result<Order>)
    ensures r.Ok? <==> id in db.orders && ctx == Some(db.orders[id].vendedor)
    ensures r.Ok? ==> r.value == db.orders[id]
    ensures id !in db.orders ==> r == Err(OrderNotFound)
    ensures id in db.orders && ctx.Some? && ctx.value != db.orders[id].vendedor ==> r == Err(NotOwner)
    ensures id in db.orders && ctx.None? ==> r == Err(Unauthenticated)
  {
    if id !in db.orders then Err(OrderNotFound)
    else match Authorize(db.orders[id].vendedor, ctx)
      case Some(e) => Err(e)
      case None => Ok(db.orders[id])
  }
}
