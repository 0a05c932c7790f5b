/** Stock arithmetic of the order resolvers: the read-only availability checks
    (phase 1) and the stock writes they guard (phase 2), for order creation and
    for order update. */
module Ledger {
  import opened Model

  /** No two line items name the same product. */
  predicate DistinctIds(items: seq<Item>) {
    forall i, j :: 0 <= i < j < |items| ==> items[i].id != items[j].id
  }

  predicate NonNegative(stock: map<Id, int>) {
    forall p :: p in stock ==> stock[p] >= 0
  }

  /** `Array.prototype.find` on line items by id: the first match, if any. */
  function FindIndex(items: seq<Item>, key: Id): (r: Option<nat>)
    ensures r.Some? ==> r.value < |items| && items[r.value].id == key
    ensures r.Some? ==> forall j :: 0 <= j < r.value ==> items[j].id != key
    ensures r.None? <==> forall j :: 0 <= j < |items| ==> items[j].id != key
  {
    if items == [] then None
    else if items[0].id == key then Some(0)
    else match FindIndex(items[1..], key)
      case None => None
      case Some(k) => Some(k + 1)
  }

  // ---------------------------------------------------------------------------
  // Order creation

  /** Phase 1 of creation for one line item: the product must exist and hold
      at least the ordered quantity. */
  function StockError(stock: map<Id, int>, a: Item): (r: Option<Error>)
    ensures r.None? <==> a.id in stock && a.cantidad <= stock[a.id]
    ensures a.id !in stock ==> r == Some(ProductNotFound(a.id))
  {
    if a.id !in stock then Some(ProductNotFound(a.id))
    else if a.cantidad > stock[a.id] then Some(InsufficientStock(a.id))
    else None
  }

  /** Phase 1 of creation: every line item is checked against the unchanged
      stock, and the first failure is thrown. */
  function CheckStock(stock: map<Id, int>, items: seq<Item>): (r: Option<Error>)
    ensures r.None? <==> forall j :: 0 <= j < |items| ==> StockError(stock, items[j]).None?
  {
    if items == [] then None
    else if StockError(stock, items[0]).Some? then StockError(stock, items[0])
    else CheckStock(stock, items[1..])
  }

  /** The error phase 1 throws is that of the first line item that fails. */
  lemma {:induction false} CheckStockFirst(stock: map<Id, int>, items: seq<Item>, k: nat)
    requires k < |items| && StockError(stock, items[k]).Some?
    requires forall j :: 0 <= j < k ==> StockError(stock, items[j]).None?
    ensures CheckStock(stock, items) == StockError(stock, items[k])
  {
    if k > 0 {
      CheckStockFirst(stock, items[1..], k - 1);
    }
  }

  /** Total quantity of product p over the line items. */
  function Demand(items: seq<Item>, p: Id): int {
    if items == [] then 0
    else Demand(items[..|items| - 1], p) + (if items[|items| - 1].id == p then items[|items| - 1].cantidad else 0)
  }

  /** The stock after phase 2 of creation: each product loses its demand. */
  function Reserved(stock: map<Id, int>, items: seq<Item>): (r: map<Id, int>)
    ensures r.Keys == stock.Keys
  {
    map p | p in stock :: stock[p] - Demand(items, p)
  }

  lemma {:induction false} DemandOfDistinct(items: seq<Item>, i: nat)
    requires DistinctIds(items) && i < |items|
    ensures Demand(items, items[i].id) == items[i].cantidad
  {
    var n := |items| - 1;
    if i < n {
      DemandOfDistinct(items[..n], i);
    } else {
      DemandOfAbsent(items[..n], items[i].id);
    }
  }

  lemma {:induction false} DemandOfAbsent(items: seq<Item>, p: Id)
    requires forall j :: 0 <= j < |items| ==> items[j].id != p
    ensures Demand(items, p) == 0
  {
    if items != [] {
      DemandOfAbsent(items[..|items| - 1], p);
    }
  }

  /** Creation takes each ordered quantity off its product once the ids are
      distinct, and leaves every other product alone. */
  lemma ReservedExact(stock: map<Id, int>, items: seq<Item>)
    requires DistinctIds(items)
    requires forall j :: 0 <= j < |items| ==> items[j].id in stock
    ensures Reserved(stock, items).Keys == stock.Keys
    ensures forall j :: 0 <= j < |items| ==>
      Reserved(stock, items)[items[j].id] == stock[items[j].id] - items[j].cantidad
    ensures forall p :: p in stock && (forall j :: 0 <= j < |items| ==> items[j].id != p) ==>
      Reserved(stock, items)[p] == stock[p]
  {
    forall j | 0 <= j < |items| {
      DemandOfDistinct(items, j);
    }
    forall p | p in stock && (forall j :: 0 <= j < |items| ==> items[j].id != p) {
      DemandOfAbsent(items, p);
    }
  }

  /** With distinct ids, a passed phase 1 keeps every stock count non-negative. */
  lemma ReservedNonNegative(stock: map<Id, int>, items: seq<Item>)
    requires NonNegative(stock) && DistinctIds(items)
    requires CheckStock(stock, items).None?
    ensures NonNegative(Reserved(stock, items))
  {
    forall p | p in stock ensures stock[p] - Demand(items, p) >= 0 {
      var k := FindIndex(items, p);
      if k.Some? {
        DemandOfDistinct(items, k.value);
        assert StockError(stock, items[k.value]).None?;
      } else {
        DemandOfAbsent(items, p);
      }
    }
  }

  /** Each line item is checked alone against the unchanged stock, so one
      product ordered twice passes phase 1 and overdraws in phase 2. */
  lemma DuplicateItemsOverdraw()
    ensures var stock := map["p" := 5];
            var items := [Item("p", 3), Item("p", 3)];
            CheckStock(stock, items).None? && Reserved(stock, items)["p"] == -1
  {
    var items := [Item("p", 3), Item("p", 3)];
    assert items[..1] == [Item("p", 3)];
    assert items[..1][..0] == [];
  }

  // ---------------------------------------------------------------------------
  // Order update

  /** Phase 1 of update for one new line item: the old line item with its id
      must exist, and a raised quantity needs the difference in stock. */
  function DeltaError(stock: map<Id, int>, prior: seq<Item>, a: Item): (r: Option<Error>)
    ensures FindIndex(prior, a.id).None? ==> r == Some(ItemNotInOrder(a.id))
    ensures r.None? <==>
      FindIndex(prior, a.id).Some? && (Delta(prior, a) > 0 ==> a.id in stock && Delta(prior, a) <= stock[a.id])
  {
    match FindIndex(prior, a.id)
    case None => Some(ItemNotInOrder(a.id))
    case Some(k) =>
      if a.cantidad > prior[k].cantidad then
        if a.id !in stock then Some(ProductNotFound(a.id))
        else if stock[a.id] < a.cantidad - prior[k].cantidad then Some(InsufficientStock(a.id))
        else None
      else None
  }

  /** Phase 1 of update: every new line item is checked, the first failure thrown. */
  function CheckDeltas(stock: map<Id, int>, prior: seq<Item>, items: seq<Item>): (r: Option<Error>)
    ensures r.None? <==> forall j :: 0 <= j < |items| ==> DeltaError(stock, prior, items[j]).None?
  {
    if items == [] then None
    else if DeltaError(stock, prior, items[0]).Some? then DeltaError(stock, prior, items[0])
    else CheckDeltas(stock, prior, items[1..])
  }

  lemma {:induction false} CheckDeltasFirst(stock: map<Id, int>, prior: seq<Item>, items: seq<Item>, k: nat)
    requires k < |items| && DeltaError(stock, prior, items[k]).Some?
    requires forall j :: 0 <= j < k ==> DeltaError(stock, prior, items[j]).None?
    ensures CheckDeltas(stock, prior, items) == DeltaError(stock, prior, items[k])
  {
    if k > 0 {
      CheckDeltasFirst(stock, prior, items[1..], k - 1);
    }
  }

  /** How phase 2 matches a new line item with an old one. `ById` is the match
      of phase 1; `ByToStringMethod` is what phase 2 actually compares: the old
      id with the `toString` method itself, which JavaScript's `==` turns into
      the method's source text. */
  datatype Matcher = ById | ByToStringMethod

  const ToStringMethodText: string := "function toString() { [native code] }"

  function MatchKey(m: Matcher, a: Item): Id {
    if m.ById? then a.id else ToStringMethodText
  }

  /** The stock after phase 2, and the error if phase 2 threw part-way. */
  datatype Applied = Applied(stock: map<Id, int>, failure: Option<Error>)

  /** Phase 2 of update for one new line item `a`, after the items before it
      left `prev`: a raised quantity reserves the difference, a lowered one
      releases it, an equal one touches nothing. It throws if the old line
      item is not found, or if the quantity changes and the product is gone;
      after a throw nothing more happens. */
  function ApplyOne(m: Matcher, prev: Applied, prior: seq<Item>, a: Item): (r: Applied)
    ensures r.stock.Keys == prev.stock.Keys
  {
    if prev.failure.Some? then prev
    else match FindIndex(prior, MatchKey(m, a))
      case None => Applied(prev.stock, Some(ItemNotInOrder(a.id)))
      case Some(k) =>
        var d := a.cantidad - prior[k].cantidad;
        if d == 0 then prev
        else if a.id !in prev.stock then Applied(prev.stock, Some(ProductNotFound(a.id)))
        else Applied(prev.stock[a.id := prev.stock[a.id] - d], None)
  }

  /** Phase 2 of update over all new line items, in order; the writes made
      before a throw stay. */
  function ApplyDeltas(m: Matcher, stock: map<Id, int>, prior: seq<Item>, items: seq<Item>): (r: Applied)
    ensures r.stock.Keys == stock.Keys
  {
    if items == [] then Applied(stock, None)
    else ApplyOne(m, ApplyDeltas(m, stock, prior, items[..|items| - 1]), prior, items[|items| - 1])
  }

  /** Once phase 2 has thrown, the remaining line items change nothing. */
  lemma {:induction false} ApplyDeltasAfterFailure(m: Matcher, stock: map<Id, int>, prior: seq<Item>, items: seq<Item>, n: nat)
    requires n <= |items|
    requires ApplyDeltas(m, stock, prior, items[..n]).failure.Some?
    ensures ApplyDeltas(m, stock, prior, items) == ApplyDeltas(m, stock, prior, items[..n])
  {
    if n < |items| {
      assert items[..|items| - 1][..n] == items[..n];
      ApplyDeltasAfterFailure(m, stock, prior, items[..|items| - 1], n);
    } else {
      assert items[..n] == items;
    }
  }

  /** The signed change a new line item asks for against the old line item with
      its id: new minus old quantity (none when no old line item matches). */
  function Delta(prior: seq<Item>, a: Item): int {
    match FindIndex(prior, a.id)
    case None => 0
    case Some(k) => a.cantidad - prior[k].cantidad
  }

  /** The total change asked for product p. */
  function NetDelta(prior: seq<Item>, items: seq<Item>, p: Id): int {
    if items == [] then 0
    else NetDelta(prior, items[..|items| - 1], p) + (if items[|items| - 1].id == p then Delta(prior, items[|items| - 1]) else 0)
  }

  /** A completed phase 2 takes exactly the net change off each product. */
  lemma {:induction false} ApplyDeltasExact(stock: map<Id, int>, prior: seq<Item>, items: seq<Item>)
    requires ApplyDeltas(ById, stock, prior, items).failure.None?
    ensures forall p :: p in stock ==> ApplyDeltas(ById, stock, prior, items).stock[p] == stock[p] - NetDelta(prior, items, p)
  {
    if items != [] {
      var prefix := items[..|items| - 1];
      ApplyDeltasExact(stock, prior, prefix);
    }
  }

  /** After phase 1 has passed, phase 2 completes exactly when every product
      whose quantity changes is still in the catalog. */
  lemma ApplyDeltasCompletes(stock: map<Id, int>, prior: seq<Item>, items: seq<Item>)
    requires CheckDeltas(stock, prior, items).None?
    ensures ApplyDeltas(ById, stock, prior, items).failure.None? <==>
      forall j :: 0 <= j < |items| && Delta(prior, items[j]) != 0 ==> items[j].id in stock
  {
    if ApplyDeltas(ById, stock, prior, items).failure.None? {
      ApplyDeltasCompletedOnlyIf(stock, prior, items);
    } else if forall j :: 0 <= j < |items| && Delta(prior, items[j]) != 0 ==> items[j].id in stock {
      ApplyDeltasCompletesIf(stock, prior, items);
    }
  }

  lemma {:induction false} ApplyDeltasCompletedOnlyIf(stock: map<Id, int>, prior: seq<Item>, items: seq<Item>)
    requires ApplyDeltas(ById, stock, prior, items).failure.None?
    ensures forall j :: 0 <= j < |items| && Delta(prior, items[j]) != 0 ==> items[j].id in stock
  {
    if items != [] {
      var n := |items| - 1;
      var prefix := items[..n];
      var prev := ApplyDeltas(ById, stock, prior, prefix);
      var a := items[n];
      assert ApplyDeltas(ById, stock, prior, items) == ApplyOne(ById, prev, prior, a);
      assert prev.failure.None?;
      ApplyDeltasCompletedOnlyIf(stock, prior, prefix);
      ApplyOneMatched(prev, prior, a);
      assert Delta(prior, a) != 0 ==> a.id in stock;
      forall j | 0 <= j < |items| && Delta(prior, items[j]) != 0 ensures items[j].id in stock {
        if j < n {
          assert prefix[j] == items[j];
        } else {
          assert items[j] == a;
        }
      }
    }
  }

  lemma {:induction false} ApplyDeltasCompletesIf(stock: map<Id, int>, prior: seq<Item>, items: seq<Item>)
    requires CheckDeltas(stock, prior, items).None?
    requires forall j :: 0 <= j < |items| && Delta(prior, items[j]) != 0 ==> items[j].id in stock
    ensures ApplyDeltas(ById, stock, prior, items).failure.None?
  {
    if items != [] {
      var n := |items| - 1;
      var prefix := items[..n];
      assert forall j :: 0 <= j < n ==> prefix[j] == items[j];
      ApplyDeltasCompletesIf(stock, prior, prefix);
      assert DeltaError(stock, prior, items[n]).None?;
      ApplyOneMatched(ApplyDeltas(ById, stock, prior, prefix), prior, items[n]);
    }
  }

  /** Phase 2 with the match of phase 1, for one line item after a prefix
      that completed. */
  lemma ApplyOneMatched(prev: Applied, prior: seq<Item>, a: Item)
    requires prev.failure.None?
    ensures ApplyOne(ById, prev, prior, a).failure.None? ==> FindIndex(prior, a.id).Some?
    ensures FindIndex(prior, a.id).Some? ==>
      (ApplyOne(ById, prev, prior, a).failure.None? <==> (Delta(prior, a) != 0 ==> a.id in prev.stock))
    ensures ApplyOne(ById, prev, prior, a).failure.None? ==>
      ApplyOne(ById, prev, prior, a).stock ==
        if Delta(prior, a) == 0 then prev.stock else prev.stock[a.id := prev.stock[a.id] - Delta(prior, a)]
  {
  }

  lemma {:induction false} NetDeltaOfDistinct(prior: seq<Item>, items: seq<Item>, i: nat)
    requires DistinctIds(items) && i < |items|
    ensures NetDelta(prior, items, items[i].id) == Delta(prior, items[i])
  {
    var n := |items| - 1;
    if i < n {
      NetDeltaOfDistinct(prior, items[..n], i);
    } else {
      NetDeltaOfAbsent(prior, items[..n], items[i].id);
    }
  }

  lemma {:induction false} NetDeltaOfAbsent(prior: seq<Item>, items: seq<Item>, p: Id)
    requires forall j :: 0 <= j < |items| ==> items[j].id != p
    ensures NetDelta(prior, items, p) == 0
  {
    if items != [] {
      NetDeltaOfAbsent(prior, items[..|items| - 1], p);
    }
  }

  /** With distinct new ids, a completed phase 2 reserves exactly new − old for
      a raised quantity, releases exactly old − new for a lowered one, and
      leaves every product outside the new line items alone: products that
      appear only in the old order are not released. */
  lemma ApplyDeltasPerItem(stock: map<Id, int>, prior: seq<Item>, items: seq<Item>)
    requires DistinctIds(items)
    requires ApplyDeltas(ById, stock, prior, items).failure.None?
    ensures forall j :: 0 <= j < |items| && items[j].id in stock ==>
      ApplyDeltas(ById, stock, prior, items).stock[items[j].id] == stock[items[j].id] - Delta(prior, items[j])
    ensures forall p :: p in stock && (forall j :: 0 <= j < |items| ==> items[j].id != p) ==>
      ApplyDeltas(ById, stock, prior, items).stock[p] == stock[p]
  {
    ApplyDeltasExact(stock, prior, items);
    forall j | 0 <= j < |items| {
      NetDeltaOfDistinct(prior, items, j);
    }
    forall p | p in stock && (forall j :: 0 <= j < |items| ==> items[j].id != p) {
      NetDeltaOfAbsent(prior, items, p);
    }
  }

  /** Phase 2 writes only the products its new line items name, whether or not
      it completes and whatever the ids repeat: products that appear only in the
      old order are not released. */
  lemma {:induction false} ApplyDeltasUntouched(m: Matcher, stock: map<Id, int>, prior: seq<Item>, items: seq<Item>, p: Id)
    requires p in stock
    requires forall j :: 0 <= j < |items| ==> items[j].id != p
    ensures ApplyDeltas(m, stock, prior, items).stock[p] == stock[p]
  {
    if items != [] {
      var n := |items| - 1;
      assert forall j :: 0 <= j < n ==> items[..n][j] == items[j];
      ApplyDeltasUntouched(m, stock, prior, items[..n], p);
      assert items[n].id != p;
    }
  }

  /** With distinct new ids and a passed phase 1, phase 2 keeps stock
      non-negative, whether or not it completes. */
  lemma {:induction false} ApplyDeltasNonNegative(stock: map<Id, int>, prior: seq<Item>, items: seq<Item>)
    requires NonNegative(stock) && DistinctIds(items)
    requires CheckDeltas(stock, prior, items).None?
    ensures NonNegative(ApplyDeltas(ById, stock, prior, items).stock)
  {
    if items != [] {
      var n := |items| - 1;
      var prefix := items[..n];
      assert forall j :: 0 <= j < n ==> prefix[j] == items[j];
      assert DistinctIds(prefix);
      assert CheckDeltas(stock, prior, prefix).None?;
      ApplyDeltasNonNegative(stock, prior, prefix);
      var prev := ApplyDeltas(ById, stock, prior, prefix);
      var a := items[n];
      assert DeltaError(stock, prior, a).None?;
      if prev.failure.None? && a.id in stock {
        ApplyDeltasExact(stock, prior, prefix);
        NetDeltaOfAbsent(prior, prefix, a.id);
        ApplyOneNonNegative(stock, prev, prior, a);
      }
    }
  }

  /** One pass of phase 2 on a product not touched before keeps stock
      non-negative once phase 1 has passed for that line item. */
  lemma ApplyOneNonNegative(stock: map<Id, int>, prev: Applied, prior: seq<Item>, a: Item)
    requires prev.failure.None? && NonNegative(prev.stock)
    requires DeltaError(stock, prior, a).None?
    requires a.id in stock && a.id in prev.stock && prev.stock[a.id] == stock[a.id]
    ensures NonNegative(ApplyOne(ById, prev, prior, a).stock)
  {
    var k := FindIndex(prior, a.id).value;
    var d := a.cantidad - prior[k].cantidad;
    assert d > 0 ==> stock[a.id] >= d;
    var r := ApplyOne(ById, prev, prior, a);
    assert r.stock == prev.stock || r.stock == prev.stock[a.id := prev.stock[a.id] - d];
  }

  /** Resubmitting the old line items changes nothing: every quantity is equal,
      so both phases pass and no product is read or written. */
  lemma {:induction false} ResubmitUnchanged(stock: map<Id, int>, prior: seq<Item>, n: nat)
    requires DistinctIds(prior) && n <= |prior|
    ensures CheckDeltas(stock, prior, prior[..n]).None?
    ensures ApplyDeltas(ById, stock, prior, prior[..n]) == Applied(stock, None)
  {
    forall j | 0 <= j < n ensures DeltaError(stock, prior, prior[..n][j]).None? {
      assert FindIndex(prior, prior[j].id) == Some(j);
    }
    if n > 0 {
      assert prior[..n][..n - 1] == prior[..n - 1];
      ResubmitUnchanged(stock, prior, n - 1);
      assert FindIndex(prior, prior[n - 1].id) == Some(n - 1);
    }
  }

  /** Phase 2 as written: no ObjectId (24 characters) equals the source text of
      `toString`, so `find` at line 346 never matches and the first new line
      item throws before any stock is written. */
  lemma {:induction false} ApplyDeltasAsWrittenFails(stock: map<Id, int>, prior: seq<Item>, items: seq<Item>)
    requires items != []
    requires forall j :: 0 <= j < |prior| ==> |prior[j].id| == 24
    ensures ApplyDeltas(ByToStringMethod, stock, prior, items) == Applied(stock, Some(ItemNotInOrder(items[0].id)))
  {
    assert |ToStringMethodText| != 24;
    assert FindIndex(prior, ToStringMethodText).None?;
    assert items[..1][..0] == [];
    ApplyDeltasAfterFailure(ByToStringMethod, stock, prior, items, 1);
  }

  /** Phase 2 is not all-or-nothing: a reservation made for one line item
      stays when a later line item releases stock of a product that has left
      the catalog. */
  lemma PartialWriteOnMissingProduct()
    ensures var prior := [Item("p", 1), Item("q", 2)];
            var items := [Item("p", 3), Item("q", 1)];
            var stock := map["p" := 5];
            CheckDeltas(stock, prior, items).None? &&
            ApplyDeltas(ById, stock, prior, items) == Applied(map["p" := 3], Some(ProductNotFound("q")))
  {
    var prior := [Item("p", 1), Item("q", 2)];
    var items := [Item("p", 3), Item("q", 1)];
    assert FindIndex(prior, "p") == Some(0);
    assert FindIndex(prior, "q") == Some(1);
    assert items[..1] == [Item("p", 3)];
    assert items[..1][..0] == [];
  }
}
