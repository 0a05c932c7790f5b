/** The store the resolvers update in place, and the resolvers themselves as
    methods on it: each reads and writes the maps record by record, as the
    database calls do, and ends in the state its pure counterpart in
    `Resolvers` describes. */
module Server {
  import opened Model
  import opened Ownership
  import opened Ledger
  import Resolvers

  class Store {
    var stock: map<Id, int>
    var clients: map<Id, Client>
    var orders: map<Id, Order>

    function Snapshot(): Db
      reads this
    {
      Db(stock, clients, orders)
    }

    constructor (db: Db)
      ensures Snapshot() == db
    {
      stock, clients, orders := db.stock, db.clients, db.orders;
    }

    method NuevoCliente(ctx: Option<Id>, id: Id, input: Resolvers.ClientInput) returns (r: Result<Client>)
      modifies this
      ensures Outcome(r, Snapshot()) == Resolvers.NuevoCliente(old(Snapshot()), ctx, id, input)
    {
      if Resolvers.EmailTaken(Snapshot(), input.email) {
        return Err(DuplicateEmail);
      }
      if ctx.None? {
        return Err(Unauthenticated);
      }
      var c := Client(input.email, ctx.value);
      clients := clients[id := c];
      r := Ok(c);
    }

    method ActualizarCliente(ctx: Option<Id>, id: Id, input: Resolvers.ClientInput) returns (r: Result<Client>)
      modifies this
      ensures Outcome(r, Snapshot()) == Resolvers.ActualizarCliente(old(Snapshot()), ctx, id, input)
    {
      var found := ObtenerCliente(Snapshot(), ctx, id);
      if found.Err? {
        return Err(found.error);
      }
      var c := found.value.(email := input.email);
      clients := clients[id := c];
      r := Ok(c);
    }

    method EliminarCliente(ctx: Option<Id>, id: Id) returns (r: Result<()>)
      modifies this
      ensures Outcome(r, Snapshot()) == Resolvers.EliminarCliente(old(Snapshot()), ctx, id)
    {
      var found := ObtenerCliente(Snapshot(), ctx, id);
      if found.Err? {
        return Err(found.error);
      }
      clients := clients - {id};
      r := Ok(());
    }

    /** Phase 1 of `nuevoPedido` (lines 291-297): reads only. */
    method CheckAvailability(items: seq<Item>) returns (e: Option<Error>)
      ensures e == CheckStock(stock, items)
    {
      var i := 0;
      while i < |items|
        invariant 0 <= i <= |items|
        invariant forall j :: 0 <= j < i ==> StockError(stock, items[j]).None?
      {
        var a := items[i];
        if a.id !in stock {
          CheckStockFirst(stock, items, i);
          return Some(ProductNotFound(a.id));
        }
        if a.cantidad > stock[a.id] {
          CheckStockFirst(stock, items, i);
          return Some(InsufficientStock(a.id));
        }
        i := i + 1;
      }
      e := None;
    }

    /** Phase 2 of `nuevoPedido` (lines 298-303): each line item's quantity is
        taken off its product, one save at a time. */
    method Reserve(items: seq<Item>)
      requires forall j :: 0 <= j < |items| ==> items[j].id in stock
      modifies this
      ensures stock == Reserved(old(stock), items)
      ensures clients == old(clients) && orders == old(orders)
    {
      var i := 0;
      while i < |items|
        invariant 0 <= i <= |items|
        invariant stock.Keys == old(stock).Keys
        invariant forall p :: p in old(stock) ==> stock[p] == old(stock)[p] - Demand(items[..i], p)
        invariant clients == old(clients) && orders == old(orders)
      {
        var a := items[i];
        assert items[..i + 1][..i] == items[..i];
        stock := stock[a.id := stock[a.id] - a.cantidad];
        i := i + 1;
      }
      assert items[..i] == items;
    }

    method NuevoPedido(ctx: Option<Id>, id: Id, input: Resolvers.OrderInput) returns (r: Result<Order>)
      modifies this
      ensures Outcome(r, Snapshot()) == Resolvers.NuevoPedido(old(Snapshot()), ctx, id, input)
    {
      var found := ObtenerCliente(Snapshot(), ctx, input.cliente);
      if found.Err? {
        return Err(found.error);
      }
      var e := CheckAvailability(input.pedido);
      if e.Some? {
        return Err(e.value);
      }
      Reserve(input.pedido);
      var o := Order(ctx.value, input.cliente, input.pedido);
      orders := orders[id := o];
      r := Ok(o);
    }

    /** Phase 1 of `actualizarPedido` (lines 333-342): reads only. */
    method CheckDeltaAvailability(prior: seq<Item>, items: seq<Item>) returns (e: Option<Error>)
      ensures e == CheckDeltas(stock, prior, items)
    {
      var i := 0;
      while i < |items|
        invariant 0 <= i <= |items|
        invariant forall j :: 0 <= j < i ==> DeltaError(stock, prior, items[j]).None?
      {
        var a := items[i];
        var k := FindIndex(prior, a.id);
        if k.None? {
          CheckDeltasFirst(stock, prior, items, i);
          return Some(ItemNotInOrder(a.id));
        }
        var was := prior[k.value].cantidad;
        if a.cantidad > was {
          if a.id !in stock {
            CheckDeltasFirst(stock, prior, items, i);
            return Some(ProductNotFound(a.id));
          }
          if stock[a.id] < a.cantidad - was {
            CheckDeltasFirst(stock, prior, items, i);
            return Some(InsufficientStock(a.id));
          }
        }
        i := i + 1;
      }
      e := None;
    }

    /** One pass of phase 2's loop (lines 345-356): the matched old line item
        gives the difference, which is reserved or released on the product. */
    method AdjustStock(prior: seq<Item>, a: Item) returns (e: Option<Error>)
      modifies this
      ensures Applied(stock, e) == ApplyOne(ById, Applied(old(stock), None), prior, a)
      ensures clients == old(clients) && orders == old(orders)
    {
      var k := FindIndex(prior, a.id);
      if k.None? {
        return Some(ItemNotInOrder(a.id));
      }
      var was := prior[k.value].cantidad;
      if a.cantidad > was {
        if a.id !in stock {
          return Some(ProductNotFound(a.id));
        }
        stock := stock[a.id := stock[a.id] - (a.cantidad - was)];
      }
      if a.cantidad < was {
        if a.id !in stock {
          return Some(ProductNotFound(a.id));
        }
        stock := stock[a.id := stock[a.id] + (was - a.cantidad)];
      }
      e := None;
    }

    /** Phase 2 of `actualizarPedido` (lines 344-357), matching line items by
        id: a raised quantity reserves the difference, a lowered one releases
        it; a throw keeps the writes already made. */
    method ApplyDeltaChanges(prior: seq<Item>, items: seq<Item>) returns (e: Option<Error>)
      modifies this
      ensures Applied(stock, e) == ApplyDeltas(ById, old(stock), prior, items)
      ensures clients == old(clients) && orders == old(orders)
    {
      var i := 0;
      while i < |items|
        invariant 0 <= i <= |items|
        invariant ApplyDeltas(ById, old(stock), prior, items[..i]) == Applied(stock, None)
        invariant clients == old(clients) && orders == old(orders)
      {
        assert items[..i + 1][..i] == items[..i];
        e := AdjustStock(prior, items[i]);
        if e.Some? {
          ApplyDeltasAfterFailure(ById, old(stock), prior, items, i + 1);
          return;
        }
        i := i + 1;
      }
      assert items[..i] == items;
      e := None;
    }

    method ActualizarPedido(ctx: Option<Id>, id: Id, input: Resolvers.OrderUpdate) returns (r: Result<Order>)
      modifies this
      ensures Outcome(r, Snapshot()) == Resolvers.ActualizarPedido(old(Snapshot()), ctx, id, input)
    {
      var found := ObtenerPedido(Snapshot(), ctx, id);
      if found.Err? {
        return Err(found.error);
      }
      var client := ObtenerCliente(Snapshot(), ctx, input.cliente);
      if client.Err? {
        return Err(client.error);
      }
      var order := found.value;
      var pedido := order.pedido;
      if input.pedido.Some? {
        var e := CheckDeltaAvailability(order.pedido, input.pedido.value);
        if e.Some? {
          return Err(e.value);
        }
        e := ApplyDeltaChanges(order.pedido, input.pedido.value);
        if e.Some? {
          return Err(e.value);
        }
        pedido := input.pedido.value;
      }
      var o := order.(cliente := input.cliente, pedido := pedido);
      orders := orders[id := o];
      r := Ok(o);
    }

    method EliminarPedido(ctx: Option<Id>, id: Id) returns (r: Result<()>)
      modifies this
      ensures Outcome(r, Snapshot()) == Resolvers.EliminarPedido(old(Snapshot()), ctx, id)
    {
      var found := ObtenerPedido(Snapshot(), ctx, id);
      if found.Err? {
        return Err(found.error);
      }
      orders := orders - {id};
      r := Ok(());
    }
  }
}
