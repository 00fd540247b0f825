/** The earlier iteration's crud operations on an in-memory store, with integer
    columns. Creation always writes an entry, and deletion removes the item row
    only. */
module VariantCrud {
  import opened Wrappers
  import opened BackendModels
  import opened VariantModels
  import opened VariantLedger

  /** The `setattr` loop of `update_item`: copies each entry of the patch's
      dump onto the row, in order. The result is the declarative partial update. */
  method CopySetFields(item: VItem, p: VItemPatch) returns (r: VItem)
    ensures r == VApplyPatch(item, p)
  {
    r := item;
    var fields := VDump(p);
    for i := 0 to |fields|
      invariant r == VSetAll(item, fields[..i])
    {
      assert fields[..i + 1][..i] == fields[..i];
      r := VSetAttr(r, fields[i]);
    }
    assert fields[..|fields|] == fields;
    VSetAllDumpIsApplyPatch(item, p);
  }

  class VariantStore {
    var items: map<nat, VItem>
    var movements: seq<StockMovement>
    var nextItemId: nat
    var nextMovementId: nat

    ghost predicate Valid()
      reads this
    {
      VConsistent(items, movements, nextItemId, nextMovementId)
    }

    constructor ()
      ensures Valid()
      ensures items == map[] && movements == []
      ensures nextItemId == 1 && nextMovementId == 1
    {
      items := map[];
      movements := [];
      nextItemId := 1;
      nextMovementId := 1;
    }

    /** `get_items`: every stored item exactly once, in no promised order. */
    method GetItems() returns (r: seq<VItem>)
      requires Valid()
      ensures |r| == |items|
      ensures forall id :: id in items ==> items[id] in r
      ensures forall i :: 0 <= i < |r| ==> r[i].id in items && items[r[i].id] == r[i]
    {
      r := [];
      var rest := items.Keys;
      while rest != {}
        invariant rest <= items.Keys
        invariant |r| + |rest| == |items|
        invariant forall id :: id in items && id !in rest ==> items[id] in r
        invariant forall i :: 0 <= i < |r| ==> r[i].id in items && r[i].id !in rest && items[r[i].id] == r[i]
        decreases |rest|
      {
        var id :| id in rest;
        r := r + [items[id]];
        rest := rest - {id};
      }
    }

    /** `get_item`: the stored row, or `None` exactly when the id is absent. */
    method GetItem(id: int) returns (r: Option<VItem>)
      requires Valid()
      ensures r.None? <==> id !in items
      ensures r.Some? ==> r.value == items[id] && r.value.id == id
    {
      if id in items {
        r := Some(items[id]);
      } else {
        r := None;
      }
    }

    /** `create_item`: stores the given values under a fresh id and always
        records one `ENTRADA` of the initial stock, zero included. */
    method CreateItem(c: VItemFields, date: Date) returns (r: VItem)
      requires Valid()
      requires WellFormedVFields(c)
      modifies this
      ensures Valid()
      ensures r == VItem(old(nextItemId), c.produto, c.unidadeMedida, c.custoMedio, c.valorVenda, c.estoque)
      ensures r.id !in old(items)
      ensures items == old(items)[r.id := r]
      ensures movements == old(movements) + [StockMovement(old(nextMovementId), date, Entrada, r.id, c.estoque, c.estoque)]
      ensures nextItemId == old(nextItemId) + 1 && nextMovementId == old(nextMovementId) + 1
    {
      ghost var after := VAfterCreate(items, movements, nextItemId, nextMovementId, c, date);
      VCreatePreserves(items, movements, nextItemId, nextMovementId, c, date);
      var newItem := VItem(nextItemId, c.produto, c.unidadeMedida, c.custoMedio, c.valorVenda, c.estoque);
      items := items[newItem.id := newItem];
      nextItemId := nextItemId + 1;
      var m := VMovementRecord(nextMovementId, date, newItem, Entrada, newItem.estoque);
      movements := movements + [m];
      nextMovementId := nextMovementId + 1;
      assert (items, movements, nextItemId, nextMovementId) == after;
      r := newItem;
    }

    /** `update_item`: `None` and no change on an absent id; otherwise the set
        fields are copied and the change in stock, if any, is recorded. */
    method UpdateItem(id: int, p: VItemPatch, date: Date) returns (r: Option<VItem>)
      requires Valid()
      requires WellFormedVPatch(p)
      modifies this
      ensures Valid()
      ensures r.None? <==> id !in old(items)
      ensures r.None? ==> items == old(items) && movements == old(movements)
      ensures r.Some? ==> r.value == VApplyPatch(old(items)[id], p) && items == old(items)[id := r.value]
      ensures r.Some? && r.value.estoque > old(items)[id].estoque ==>
        movements == old(movements) +
          [StockMovement(old(nextMovementId), date, Entrada, id, r.value.estoque - old(items)[id].estoque, r.value.estoque)]
      ensures r.Some? && r.value.estoque < old(items)[id].estoque ==>
        movements == old(movements) +
          [StockMovement(old(nextMovementId), date, Saida, id, old(items)[id].estoque - r.value.estoque, r.value.estoque)]
      ensures r.Some? && r.value.estoque == old(items)[id].estoque ==> movements == old(movements)
      ensures (r.None? || r.value.estoque == old(items)[id].estoque) ==> nextMovementId == old(nextMovementId)
      ensures r.Some? && r.value.estoque != old(items)[id].estoque ==> nextMovementId == old(nextMovementId) + 1
      ensures nextItemId == old(nextItemId)
    {
      if id !in items {
        return None;
      }
      ghost var (items', movements', nextMovementId') := VAfterUpdate(items, movements, nextMovementId, id, p, date);
      VUpdatePreserves(items, movements, nextItemId, nextMovementId, id, p, date);
      VUpdateOutcome(items, movements, nextMovementId, id, p, date);
      var estoqueAnterior := items[id].estoque;
      var item := CopySetFields(items[id], p);
      items := items[id := item];
      r := Some(item);
      match VDeriveMovement(estoqueAnterior, item.estoque) {
        case None =>
        case Some((t, q)) =>
          movements := movements + [VMovementRecord(nextMovementId, date, item, t, q)];
          nextMovementId := nextMovementId + 1;
      }
      assert items == items' && movements == movements' && nextMovementId == nextMovementId';
    }

    /** `delete_item`: `None` and no change on an absent id; otherwise removes
        the item row only. Its movements stay, now naming no stored item. */
    method DeleteItem(id: int) returns (r: Option<VItem>)
      requires Valid()
      modifies this
      ensures Valid()
      ensures movements == old(movements)
      ensures r.None? <==> id !in old(items)
      ensures r.None? ==> items == old(items)
      ensures r.Some? ==> r.value == old(items)[id] && items == old(items) - {id}
      ensures r.Some? ==> exists i :: 0 <= i < |movements| && movements[i].idProduto == id && id !in items
      ensures nextItemId == old(nextItemId) && nextMovementId == old(nextMovementId)
    {
      VDeletePreserves(items, movements, nextItemId, nextMovementId, id);
      if id !in items {
        return None;
      }
      VDeleteLeavesDangling(items, movements, nextItemId, nextMovementId, id);
      var item := items[id];
      items := items - {id};
      r := Some(item);
    }

    /** `get_product_movement_history`: always a list of exactly the movements
        naming the given id, whether or not that item is still stored. */
    method GetProductMovementHistory(productId: int) returns (r: Option<seq<StockMovement>>)
      requires Valid()
      ensures r.Some?
      ensures forall m :: m in r.value <==> m in movements && m.idProduto == productId
      ensures r.value == VMovementsOf(movements, productId)
    {
      r := Some(VMovementsOf(movements, productId));
    }
  }
}
