/** The backend's crud operations on an in-memory store: the `items` table as a
    map from id to row, the movement table as a sequence in insertion order, and
    the two counters standing for the database's key assignment. Each commit is
    an assignment to a field. */
module BackendCrud {
  import opened Wrappers
  import opened BackendModels
  import opened BackendSchema
  import opened BackendLedger

  /** The `setattr` loop of `update_item`: copies each entry of the patch's
      dump onto the row, in order. The result is the declarative partial update. */
  method CopySetFields(item: Item, p: ItemPatch) returns (r: Item)
    ensures r == ApplyPatch(item, p)
  {
    r := item;
    var fields := Dump(p);
    for i := 0 to |fields|
      invariant r == SetAll(item, fields[..i])
    {
      assert fields[..i + 1][..i] == fields[..i];
      r := SetAttr(r, fields[i]);
    }
    assert fields[..|fields|] == fields;
    SetAllDumpIsApplyPatch(item, p);
  }

  class Store {
    var items: map<nat, Item>
    var movements: seq<Movement>
    var nextItemId: nat
    var nextMovementId: nat

    ghost predicate Valid()
      reads this
    {
      Consistent(items, movements, nextItemId, nextMovementId)
    }

    /** An empty database; keys start at 1. */
    constructor ()
      ensures Valid()
      ensures items == map[] && movements == []
      ensures nextItemId == 1 && nextMovementId == 1
    {
      items := map[];
      movements := [];
      nextItemId := 1;
      nextMovementId := 1;
    }

    /** `get_items`: every stored item exactly once, in no promised order. */
    method GetItems() returns (r: seq<Item>)
      requires Valid()
      ensures |r| == |items|
      ensures forall id :: id in items ==> items[id] in r
      ensures forall i :: 0 <= i < |r| ==> r[i].id in items && items[r[i].id] == r[i]
    {
      r := [];
      var rest := items.Keys;
      while rest != {}
        invariant rest <= items.Keys
        invariant |r| + |rest| == |items|
        invariant forall id :: id in items && id !in rest ==> items[id] in r
        invariant forall i :: 0 <= i < |r| ==> r[i].id in items && r[i].id !in rest && items[r[i].id] == r[i]
        decreases |rest|
      {
        var id :| id in rest;
        r := r + [items[id]];
        rest := rest - {id};
      }
    }

    /** `get_item`: the stored row, or `None` exactly when the id is absent. */
    method GetItem(id: int) returns (r: Option<Item>)
      requires Valid()
      ensures r.None? <==> id !in items
      ensures r.Some? ==> r.value == items[id] && r.value.id == id
    {
      if id in items {
        r := Some(items[id]);
      } else {
        r := None;
      }
    }

    /** `create_item`: stores the five given values under a fresh id, then, when
        the initial stock is positive, records one `ENTRADA` of that stock. */
    method CreateItem(c: ItemCreate, date: Date) returns (r: Item)
      requires Valid()
      requires WellFormedCreate(c)
      modifies this
      ensures Valid()
      ensures r == Item(old(nextItemId), c.produto, c.unidadeMedida, c.custoMedio, c.valorVenda, c.estoque)
      ensures r.id !in old(items)
      ensures items == old(items)[r.id := r]
      ensures c.estoque > 0.0 ==>
        movements == old(movements) + [Movement(old(nextMovementId), date, Entrada, r.id, c.estoque, c.estoque)]
      ensures c.estoque == 0.0 ==> movements == old(movements)
      ensures nextItemId == old(nextItemId) + 1
      ensures nextMovementId == old(nextMovementId) + (if c.estoque > 0.0 then 1 else 0)
    {
      ghost var after := AfterCreate(items, movements, nextItemId, nextMovementId, c, date);
      CreatePreserves(items, movements, nextItemId, nextMovementId, c, date);
      var newItem := Item(nextItemId, c.produto, c.unidadeMedida, c.custoMedio, c.valorVenda, c.estoque);
      items := items[newItem.id := newItem];
      nextItemId := nextItemId + 1;
      if c.estoque > 0.0 {
        var m := MovementRecord(nextMovementId, date, newItem, Entrada, newItem.estoque);
        movements := movements + [m];
        nextMovementId := nextMovementId + 1;
      }
      assert (items, movements, nextItemId, nextMovementId) == after;
      r := newItem;
    }

    /** `update_item`: on an absent id returns `None` and changes nothing;
        otherwise copies the set fields onto the row, then records the change in
        stock, if any, by the derivation rule. */
    method UpdateItem(id: int, p: ItemPatch, date: Date) returns (r: Option<Item>)
      requires Valid()
      requires WellFormedPatch(p)
      modifies this
      ensures Valid()
      ensures r.None? <==> id !in old(items)
      ensures r.None? ==> items == old(items) && movements == old(movements)
      ensures r.Some? ==> r.value == ApplyPatch(old(items)[id], p) && items == old(items)[id := r.value]
      ensures r.Some? && r.value.estoque > old(items)[id].estoque ==>
        movements == old(movements) +
          [Movement(old(nextMovementId), date, Entrada, id, r.value.estoque - old(items)[id].estoque, r.value.estoque)]
      ensures r.Some? && r.value.estoque < old(items)[id].estoque ==>
        movements == old(movements) +
          [Movement(old(nextMovementId), date, Saida, id, old(items)[id].estoque - r.value.estoque, r.value.estoque)]
      ensures r.Some? && r.value.estoque == old(items)[id].estoque ==> movements == old(movements)
      ensures (r.None? || r.value.estoque == old(items)[id].estoque) ==> nextMovementId == old(nextMovementId)
      ensures r.Some? && r.value.estoque != old(items)[id].estoque ==> nextMovementId == old(nextMovementId) + 1
      ensures nextItemId == old(nextItemId)
    {
      if id !in items {
        return None;
      }
      ghost var after := AfterUpdate(items, movements, nextMovementId, id, p, date);
      UpdatePreserves(items, movements, nextItemId, nextMovementId, id, p, date);
      UpdateOutcome(items, movements, nextMovementId, id, p, date);
      var estoqueAnterior := items[id].estoque;
      var item := CopySetFields(items[id], p);
      items := items[id := item];
      r := Some(item);
      match DeriveMovement(estoqueAnterior, item.estoque) {
        case None =>
        case Some((t, q)) =>
          movements := movements + [MovementRecord(nextMovementId, date, item, t, q)];
          nextMovementId := nextMovementId + 1;
      }
      assert (items, movements, nextMovementId) == after;
    }

    /** The first half of `delete_item`: selects the movements whose
        `produto_id` is `id` and deletes them one at a time, then stores the
        resulting table. Nothing else changes. */
    method DeleteMovementsOf(id: int)
      modifies this`movements
      ensures movements == Without(old(movements), id)
    {
      var table := movements;
      var selected := MovementsOf(table, id);
      var rest := table;
      DropNothing(table);
      assert selected[..0] == [];
      for i := 0 to |selected|
        invariant rest == Drop(table, selected[..i])
      {
        DropPrefixStep(table, selected, i);
        rest := Remove(rest, selected[i]);
      }
      assert selected[..|selected|] == selected;
      DropSelectionIsWithout(table, id);
      movements := rest;
    }

    /** `delete_item`: first deletes every movement of `id`; then, if the item
        exists, deletes it and returns it. On an absent id the movements of that
        id are gone all the same (the invariant makes that set empty). */
    method DeleteItem(id: int) returns (r: Option<Item>)
      requires Valid()
      modifies this
      ensures Valid()
      ensures movements == Without(old(movements), id)
      ensures r.None? <==> id !in old(items)
      ensures r.None? ==> items == old(items) && movements == old(movements)
      ensures r.Some? ==> r.value == old(items)[id] && items == old(items) - {id}
      ensures nextItemId == old(nextItemId) && nextMovementId == old(nextMovementId)
    {
      if id !in items {
        AbsentHasNoMovements(items, movements, nextItemId, nextMovementId, id);
      } else {
        DeletePreserves(items, movements, nextItemId, nextMovementId, id);
      }
      DeleteMovementsOf(id);
      if id !in items {
        return None;
      }
      var item := items[id];
      items := items - {id};
      r := Some(item);
    }

    /** `get_product_movement_history`: always a list (possibly empty) holding
        exactly the movements whose `produto_id` is the given id, in table order. */
    method GetProductMovementHistory(productId: int) returns (r: Option<seq<Movement>>)
      requires Valid()
      ensures r.Some?
      ensures forall m :: m in r.value <==> m in movements && m.produtoId == productId
      ensures r.value == MovementsOf(movements, productId)
    {
      r := Some(MovementsOf(movements, productId));
    }
  }
}
