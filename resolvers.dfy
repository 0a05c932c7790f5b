/** The client and order mutation resolvers, each as one sequential step over
    the store: the value it returns (or the error it throws) and the store it
    leaves behind. */
module Resolvers {
  import opened Model
  import opened Ownership
  import opened Ledger

  /** The `input` of `nuevoPedido`. */
  datatype OrderInput = OrderInput(cliente: Id, pedido: seq<Item>)

  /** The `input` of `actualizarPedido`: the client is always read, the line
      items only when present. */
  datatype OrderUpdate = OrderUpdate(cliente: Id, pedido: Option<seq<Item>>)

  /** The `input` of `nuevoCliente` and `actualizarCliente`. */
  datatype ClientInput = ClientInput(email: string)

  predicate EmailTaken(db: Db, email: string) {
    exists c :: c in db.clients && db.clients[c].email == email
  }

  /** `nuevoCliente`: refuses a registered email, then stores the client under
      the current user. `id` is the id the database assigns. */
  function NuevoCliente(db: Db, ctx: Option<Id>, id: Id, input: ClientInput): (r: Outcome<Client>)
    ensures r.db.stock == db.stock && r.db.orders == db.orders
    ensures r.ret.Err? ==> r.db == db
  {
    if EmailTaken(db, input.email) then Outcome(Err(DuplicateEmail), db)
    else if ctx.None? then Outcome(Err(Unauthenticated), db)
    else
      var c := Client(input.email, ctx.value);
      Outcome(Ok(c), db.(clients := db.clients[id := c]))
  }

  /** `actualizarCliente`: an owned client gets the input's fields; its seller stays. */
  function ActualizarCliente(db: Db, ctx: Option<Id>, id: Id, input: ClientInput): (r: Outcome<Client>)
    ensures r.db.stock == db.stock && r.db.orders == db.orders
    ensures r.ret.Err? ==> r.db == db
    ensures r.ret.Ok? ==> id in db.clients && r.ret.value.vendedor == db.clients[id].vendedor
  {
    match ObtenerCliente(db, ctx, id)
    case Err(e) => Outcome(Err(e), db)
    case Ok(c) =>
      var c' := c.(email := input.email);
      Outcome(Ok(c'), db.(clients := db.clients[id := c']))
  }

  /** `eliminarCliente`: an owned client is removed; its orders stay. */
  function EliminarCliente(db: Db, ctx: Option<Id>, id: Id): (r: Outcome<()>)
    ensures r.db.stock == db.stock && r.db.orders == db.orders
    ensures r.ret.Err? ==> r.db == db
  {
    match ObtenerCliente(db, ctx, id)
    case Err(e) => Outcome(Err(e), db)
    case Ok(_) => Outcome(Ok(()), db.(clients := db.clients - {id}))
  }

  /** `nuevoPedido`: an owned client, then phase 1 over all line items, then
      phase 2, then the order stamped with the current user. `id` is the id
      the database assigns. */
  function NuevoPedido(db: Db, ctx: Option<Id>, id: Id, input: OrderInput): (r: Outcome<Order>)
    ensures r.db.clients == db.clients && r.db.stock.Keys == db.stock.Keys
    ensures r.ret.Err? ==> r.db == db
    ensures r.ret.Ok? ==> ctx == Some(r.ret.value.vendedor) && r.ret.value.cliente == input.cliente
  {
    match ObtenerCliente(db, ctx, input.cliente)
    case Err(e) => Outcome(Err(e), db)
    case Ok(_) =>
      match CheckStock(db.stock, input.pedido)
      case Some(e) => Outcome(Err(e), db)
      case None =>
        var o := Order(ctx.value, input.cliente, input.pedido);
        Outcome(Ok(o), Db(Reserved(db.stock, input.pedido), db.clients, db.orders[id := o]))
  }

  /** `actualizarPedido`: an owned order and an owned client; when line items
      are given, phase 1 and phase 2 against the order's current line items;
      then the order takes the input's client and line items and keeps its
      seller. A throw in phase 2 keeps the stock writes made before it. */
  function ActualizarPedido(db: Db, ctx: Option<Id>, id: Id, input: OrderUpdate): (r: Outcome<Order>)
    ensures r.db.clients == db.clients && r.db.stock.Keys == db.stock.Keys
    ensures r.ret.Err? ==> r.db.orders == db.orders
    ensures r.ret.Ok? ==> id in db.orders && r.ret.value.vendedor == db.orders[id].vendedor
  {
    match ObtenerPedido(db, ctx, id)
    case Err(e) => Outcome(Err(e), db)
    case Ok(o) =>
      match ObtenerCliente(db, ctx, input.cliente)
      case Err(e) => Outcome(Err(e), db)
      case Ok(_) =>
        match input.pedido
        case None =>
          var o' := o.(cliente := input.cliente);
          Outcome(Ok(o'), db.(orders := db.orders[id := o']))
        case Some(items) =>
          match CheckDeltas(db.stock, o.pedido, items)
          case Some(e) => Outcome(Err(e), db)
          case None =>
            var applied := ApplyDeltas(ById, db.stock, o.pedido, items);
            match applied.failure
            case Some(e) => Outcome(Err(e), db.(stock := applied.stock))
            case None =>
              var o' := o.(cliente := input.cliente, pedido := items);
              Outcome(Ok(o'), Db(applied.stock, db.clients, db.orders[id := o']))
  }

  /** `eliminarPedido`: an owned order is removed; its stock is not released. */
  function EliminarPedido(db: Db, ctx: Option<Id>, id: Id): (r: Outcome<()>)
    ensures r.db.stock == db.stock && r.db.clients == db.clients
    ensures r.ret.Err? ==> r.db == db
  {
    match ObtenerPedido(db, ctx, id)
    case Err(e) => Outcome(Err(e), db)
    case Ok(_) => Outcome(Ok(()), db.(orders := db.orders - {id}))
  }

  // ---------------------------------------------------------------------------
  // Properties of one call

  /** `nuevoPedido` succeeds exactly when the client exists, belongs to the
      current user and every line item passes phase 1; any failure leaves the
      whole store as it was. */
  lemma NuevoPedidoAtomic(db: Db, ctx: Option<Id>, id: Id, input: OrderInput)
    ensures NuevoPedido(db, ctx, id, input).ret.Ok? <==>
      input.cliente in db.clients && ctx == Some(db.clients[input.cliente].vendedor) &&
      forall j :: 0 <= j < |input.pedido| ==> StockError(db.stock, input.pedido[j]).None?
    ensures NuevoPedido(db, ctx, id, input).ret.Err? ==> NuevoPedido(db, ctx, id, input).db == db
    ensures input.cliente !in db.clients ==> NuevoPedido(db, ctx, id, input).ret == Err(ClientNotFound)
  {
  }

  /** A created order belongs to the current user, who owns its client; it
      holds the input's line items, every product not ordered and every client
      is unchanged, and the only order written is the new one. With distinct
      ids every ordered product loses exactly its quantity. */
  lemma NuevoPedidoEffect(db: Db, ctx: Option<Id>, id: Id, input: OrderInput)
    requires NuevoPedido(db, ctx, id, input).ret.Ok?
    ensures var out := NuevoPedido(db, ctx, id, input);
      && ctx.Some?
      && out.ret.value == Order(ctx.value, input.cliente, input.pedido)
      && db.clients[input.cliente].vendedor == out.ret.value.vendedor
      && out.db.clients == db.clients
      && out.db.orders == db.orders[id := out.ret.value]
      && out.db.stock.Keys == db.stock.Keys
      && (forall p :: p in db.stock && (forall j :: 0 <= j < |input.pedido| ==> input.pedido[j].id != p) ==>
            out.db.stock[p] == db.stock[p])
      && (DistinctIds(input.pedido) ==> forall j :: 0 <= j < |input.pedido| ==>
            out.db.stock[input.pedido[j].id] == db.stock[input.pedido[j].id] - input.pedido[j].cantidad)
  {
    forall p | p in db.stock && (forall j :: 0 <= j < |input.pedido| ==> input.pedido[j].id != p) {
      DemandOfAbsent(input.pedido, p);
    }
    if DistinctIds(input.pedido) {
      ReservedExact(db.stock, input.pedido);
    }
  }

  /** `actualizarPedido` changes nothing unless the order exists and belongs
      to the current user and so does the given client; nor when phase 1
      fails, whose error is that of the first failing line item. */
  lemma ActualizarPedidoGuards(db: Db, ctx: Option<Id>, id: Id, input: OrderUpdate)
    ensures var out := ActualizarPedido(db, ctx, id, input);
      out.db != db ==>
        && id in db.orders && ctx == Some(db.orders[id].vendedor)
        && input.cliente in db.clients && ctx == Some(db.clients[input.cliente].vendedor)
    ensures var out := ActualizarPedido(db, ctx, id, input);
      out.ret.Ok? ==>
        && id in db.orders && ctx == Some(db.orders[id].vendedor)
        && input.cliente in db.clients && ctx == Some(db.clients[input.cliente].vendedor)
    ensures id in db.orders && ctx == Some(db.orders[id].vendedor) &&
            input.cliente in db.clients && ctx == Some(db.clients[input.cliente].vendedor) &&
            input.pedido.Some? && CheckDeltas(db.stock, db.orders[id].pedido, input.pedido.value).Some? ==>
      ActualizarPedido(db, ctx, id, input) ==
        Outcome(Err(CheckDeltas(db.stock, db.orders[id].pedido, input.pedido.value).value), db)
  {
  }

  /** A successful update keeps the order's seller, who is the current user
      and owns the new client; it holds the input's client and line items;
      products not among the new line items (those only in the old order
      included) keep their stock; with distinct new ids each product's stock
      moves by exactly new − old. */
  lemma ActualizarPedidoEffect(db: Db, ctx: Option<Id>, id: Id, input: OrderUpdate)
    requires ActualizarPedido(db, ctx, id, input).ret.Ok?
    ensures var out := ActualizarPedido(db, ctx, id, input);
      && id in db.orders
      && var before := db.orders[id];
      && out.ret.value.vendedor == before.vendedor
      && ctx == Some(before.vendedor)
      && db.clients[input.cliente].vendedor == before.vendedor
      && out.ret.value.cliente == input.cliente
      && out.ret.value.pedido == (if input.pedido.Some? then input.pedido.value else before.pedido)
      && out.db.clients == db.clients
      && out.db.orders == db.orders[id := out.ret.value]
      && out.db.stock.Keys == db.stock.Keys
      && (forall p ::
            (p in db.stock &&
             (input.pedido.None? || forall j :: 0 <= j < |input.pedido.value| ==> input.pedido.value[j].id != p))
            ==> out.db.stock[p] == db.stock[p])
      && (input.pedido.Some? && DistinctIds(input.pedido.value) ==>
            forall j :: 0 <= j < |input.pedido.value| && input.pedido.value[j].id in db.stock ==>
            out.db.stock[input.pedido.value[j].id] ==
              db.stock[input.pedido.value[j].id] - Delta(before.pedido, input.pedido.value[j]))
  {
    if input.pedido.Some? {
      var items := input.pedido.value;
      forall p | p in db.stock && (forall j :: 0 <= j < |items| ==> items[j].id != p) {
        ApplyDeltasUntouched(ById, db.stock, db.orders[id].pedido, items, p);
      }
      if DistinctIds(items) {
        ApplyDeltasPerItem(db.stock, db.orders[id].pedido, items);
      }
    }
  }

  /** Submitting an owned order's own line items again succeeds and leaves
      every product's stock as it was. */
  lemma ActualizarPedidoResubmit(db: Db, ctx: Option<Id>, id: Id, cliente: Id)
    requires id in db.orders && ctx == Some(db.orders[id].vendedor)
    requires cliente in db.clients && ctx == Some(db.clients[cliente].vendedor)
    requires DistinctIds(db.orders[id].pedido)
    ensures var out := ActualizarPedido(db, ctx, id, OrderUpdate(cliente, Some(db.orders[id].pedido)));
      out.ret.Ok? && out.db.stock == db.stock
  {
    var prior := db.orders[id].pedido;
    ResubmitUnchanged(db.stock, prior, |prior|);
    assert prior[..|prior|] == prior;
  }

  /** With a product repeated in the stored order, `find` pairs every new line
      item with the first old one for that product, so resubmitting the order
      unchanged is not a no-op: `[p:3, p:5]` against a stock of 10 reserves
      5 - 3 for the second item and leaves 8. */
  lemma ActualizarPedidoResubmitRepeated()
    ensures var items := [Item("p", 3), Item("p", 5)];
      var db := Db(map["p" := 10], map["c" := Client("x@y", "s")], map["o" := Order("s", "c", items)]);
      var out := ActualizarPedido(db, Some("s"), "o", OrderUpdate("c", Some(items)));
      out.ret.Ok? && out.db.stock["p"] == 8
  {
    var items := [Item("p", 3), Item("p", 5)];
    var db := Db(map["p" := 10], map["c" := Client("x@y", "s")], map["o" := Order("s", "c", items)]);
    assert items[..1] == [Item("p", 3)];
    assert items[..1][..0] == [];
    assert FindIndex(items, "p") == Some(0);
    assert ObtenerPedido(db, Some("s"), "o") == Ok(db.orders["o"]);
    assert ObtenerCliente(db, Some("s"), "c").Ok?;
    assert DeltaError(db.stock, items, items[0]).None?;
    assert DeltaError(db.stock, items, items[1]).None?;
    assert CheckDeltas(db.stock, items, items).None?;
    assert ApplyDeltas(ById, db.stock, items, items[..1]) == Applied(db.stock, None);
    assert ApplyDeltas(ById, db.stock, items, items) == Applied(map["p" := 8], None);
  }

  /** `eliminarPedido` removes the order exactly when `obtenerPedido` would
      return it, and never changes stock or clients. */
  lemma EliminarPedidoEffect(db: Db, ctx: Option<Id>, id: Id)
    ensures var out := EliminarPedido(db, ctx, id);
      && out.db.stock == db.stock && out.db.clients == db.clients
      && (out.ret.Ok? <==> ObtenerPedido(db, ctx, id).Ok?)
      && out.db.orders == (if out.ret.Ok? then db.orders - {id} else db.orders)
  {
  }

  /** `actualizarCliente` and `eliminarCliente` act exactly when `obtenerCliente`
      would return the client, touch only that client, and never change its
      seller, the stock or the orders. */
  lemma ClientMutationsGuarded(db: Db, ctx: Option<Id>, id: Id, input: ClientInput)
    ensures var out := ActualizarCliente(db, ctx, id, input);
      && (out.ret.Ok? <==> ObtenerCliente(db, ctx, id).Ok?)
      && out.db.stock == db.stock && out.db.orders == db.orders
      && out.db.clients == (if out.ret.Ok? then db.clients[id := Client(input.email, db.clients[id].vendedor)] else db.clients)
    ensures var out := EliminarCliente(db, ctx, id);
      && (out.ret.Ok? <==> ObtenerCliente(db, ctx, id).Ok?)
      && out.db.stock == db.stock && out.db.orders == db.orders
      && out.db.clients == (if out.ret.Ok? then db.clients - {id} else db.clients)
  {
  }

  /** `nuevoCliente` stores a client under the current user exactly when its
      email is not registered yet. */
  lemma NuevoClienteEffect(db: Db, ctx: Option<Id>, id: Id, input: ClientInput)
    ensures var out := NuevoCliente(db, ctx, id, input);
      && (out.ret.Ok? <==> !EmailTaken(db, input.email) && ctx.Some?)
      && (EmailTaken(db, input.email) ==> out.ret == Err(DuplicateEmail))
      && (out.ret.Ok? ==> out.ret.value == Client(input.email, ctx.value) &&
                          out.db.clients == db.clients[id := out.ret.value])
      && (out.ret.Err? ==> out.db == db)
      && out.db.stock == db.stock && out.db.orders == db.orders
  {
  }

  /** `eliminarCliente` never looks at the client's orders: deleting an owned
      client succeeds and leaves its order naming a client that is gone. */
  lemma EliminarClienteOrphansOrder()
    ensures var db := Db(map[], map["c" := Client("x@y", "s")], map["o" := Order("s", "c", [])]);
      var out := EliminarCliente(db, Some("s"), "c");
      && out.ret.Ok?
      && "o" in out.db.orders && out.db.orders["o"].cliente !in out.db.clients
  {
    var db := Db(map[], map["c" := Client("x@y", "s")], map["o" := Order("s", "c", [])]);
    assert ObtenerCliente(db, Some("s"), "c").Ok?;
  }

  predicate UniqueEmails(db: Db) {
    forall c, d :: c in db.clients && d in db.clients && c != d ==> db.clients[c].email != db.clients[d].email
  }

  lemma {:induction false} NuevoClienteKeepsEmailsUnique(db: Db, ctx: Option<Id>, id: Id, input: ClientInput)
    requires UniqueEmails(db)
    ensures UniqueEmails(NuevoCliente(db, ctx, id, input).db)
  {
    var out := NuevoCliente(db, ctx, id, input);
    if out.ret.Ok? {
      forall c, d | c in out.db.clients && d in out.db.clients && c != d
        ensures out.db.clients[c].email != out.db.clients[d].email
      {
        if c != id && d != id {
          assert out.db.clients[c] == db.clients[c] && out.db.clients[d] == db.clients[d];
        } else if c == id {
          assert db.clients[d].email != input.email;
        } else {
          assert db.clients[c].email != input.email;
        }
      }
    }
  }

  /** In the resolver code only registration checks the email: an update may
      give a client the email of another. Schema constraints are not modelled. */
  lemma ActualizarClienteCanDuplicateEmail()
    ensures var db := Db(map[], map["a" := Client("x@y", "s"), "b" := Client("z@y", "s")], map[]);
      UniqueEmails(db) && !UniqueEmails(ActualizarCliente(db, Some("s"), "b", ClientInput("x@y")).db)
  {
    var db := Db(map[], map["a" := Client("x@y", "s"), "b" := Client("z@y", "s")], map[]);
    var out := ActualizarCliente(db, Some("s"), "b", ClientInput("x@y"));
    assert out.db.clients["a"].email == out.db.clients["b"].email;
  }

  // ---------------------------------------------------------------------------
  // Invariants over every reachable store

  /** Every order has the seller of its client, while that client exists. */
  predicate OwnershipChain(db: Db) {
    forall o :: o in db.orders && db.orders[o].cliente in db.clients ==>
      db.clients[db.orders[o].cliente].vendedor == db.orders[o].vendedor
  }

  predicate Consistent(db: Db) {
    NonNegative(db.stock) && OwnershipChain(db)
  }

  /** One call of a mutation resolver, with the id the database assigns to a
      created record. */
  datatype Mutation =
    | NewClient(id: Id, client: ClientInput)
    | UpdateClient(id: Id, client: ClientInput)
    | DeleteClient(id: Id)
    | NewOrder(id: Id, order: OrderInput)
    | UpdateOrder(id: Id, update: OrderUpdate)
    | DeleteOrder(id: Id)

  datatype Call = Call(ctx: Option<Id>, mutation: Mutation)

  function Run(db: Db, call: Call): Db {
    match call.mutation
    case NewClient(id, c) => NuevoCliente(db, call.ctx, id, c).db
    case UpdateClient(id, c) => ActualizarCliente(db, call.ctx, id, c).db
    case DeleteClient(id) => EliminarCliente(db, call.ctx, id).db
    case NewOrder(id, o) => NuevoPedido(db, call.ctx, id, o).db
    case UpdateOrder(id, u) => ActualizarPedido(db, call.ctx, id, u).db
    case DeleteOrder(id) => EliminarPedido(db, call.ctx, id).db
  }

  /** What the seller invariant needs of a call: a new client id that no order
      refers to (ObjectIds are never reused). */
  predicate FreshClientId(db: Db, m: Mutation) {
    m.NewClient? ==> forall o :: o in db.orders ==> db.orders[o].cliente != m.id
  }

  /** What non-negative stock needs in addition: line items with distinct
      product ids. */
  predicate Admissible(db: Db, m: Mutation) {
    && FreshClientId(db, m)
    && match m
       case NewOrder(_, o) => DistinctIds(o.pedido)
       case UpdateOrder(_, u) => u.pedido.Some? ==> DistinctIds(u.pedido.value)
       case _ => true
  }

  /** Every mutation resolver keeps each order's seller equal to its client's,
      whatever the line items: orders are stamped with the owner of their
      client, updates keep the seller and need the new client to be the
      seller's, and client updates keep the seller. */
  lemma RunKeepsOwnershipChain(db: Db, call: Call)
    requires OwnershipChain(db) && FreshClientId(db, call.mutation)
    ensures OwnershipChain(Run(db, call))
  {
  }

  lemma RunKeepsConsistent(db: Db, call: Call)
    requires Consistent(db) && Admissible(db, call.mutation)
    ensures Consistent(Run(db, call))
  {
    RunKeepsOwnershipChain(db, call);
    match call.mutation
    case NewOrder(id, o) =>
      var out := NuevoPedido(db, call.ctx, id, o);
      if out.ret.Ok? {
        ReservedNonNegative(db.stock, o.pedido);
      }
    case UpdateOrder(id, u) =>
      if id in db.orders && u.pedido.Some? {
        var prior := db.orders[id].pedido;
        if CheckDeltas(db.stock, prior, u.pedido.value).None? {
          ApplyDeltasNonNegative(db.stock, prior, u.pedido.value);
        }
      }
    case _ =>
  }

  function RunAll(db: Db, trace: seq<Call>): Db
    decreases |trace|
  {
    if trace == [] then db else RunAll(Run(db, trace[0]), trace[1..])
  }

  predicate AdmissibleTrace(db: Db, trace: seq<Call>)
    decreases |trace|
  {
    trace == [] || (Admissible(db, trace[0].mutation) && AdmissibleTrace(Run(db, trace[0]), trace[1..]))
  }

  /** Every new client id in the trace is fresh when its call runs. */
  predicate FreshTrace(db: Db, trace: seq<Call>)
    decreases |trace|
  {
    trace == [] || (FreshClientId(db, trace[0].mutation) && FreshTrace(Run(db, trace[0]), trace[1..]))
  }

  /** Every order keeps its client's seller in every store reached by calls
      with fresh client ids, whatever products their orders repeat. */
  lemma {:induction false} ReachableOwnershipChain(db: Db, trace: seq<Call>)
    requires OwnershipChain(db) && FreshTrace(db, trace)
    ensures OwnershipChain(RunAll(db, trace))
    decreases |trace|
  {
    if trace != [] {
      RunKeepsOwnershipChain(db, trace[0]);
      ReachableOwnershipChain(Run(db, trace[0]), trace[1..]);
    }
  }

  /** Stock is never negative and every order keeps its client's seller, in
      every store reached from a consistent one by calls with fresh client ids
      and distinct line-item ids. */
  lemma {:induction false} ReachableConsistent(db: Db, trace: seq<Call>)
    requires Consistent(db) && AdmissibleTrace(db, trace)
    ensures Consistent(RunAll(db, trace))
    decreases |trace|
  {
    if trace != [] {
      RunKeepsConsistent(db, trace[0]);
      ReachableConsistent(Run(db, trace[0]), trace[1..]);
    }
  }
}
