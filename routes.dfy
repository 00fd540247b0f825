/** The backend's HTTP layer: each route calls one crud operation and turns an
    empty or missing result into a 404 with a fixed Portuguese detail. */
module BackendRoutes {
  import opened Wrappers
  import opened BackendModels
  import opened BackendSchema
  import opened BackendLedger
  import opened BackendCrud

  /** A route's outcome: the response body, or the `HTTPException` raised. */
  datatype Response<+T> = Ok(body: T) | HttpError(status: int, detail: string)

  const NotFound := 404
  const NoItemsDetail := "Nenhum item encontrado"
  const ItemNotFoundDetail := "Item não encontrado"
  const NoHistoryDetail := "Nenhum historico de movimento encontrado para este produto"

  /** `GET /items`: an empty list is reported as not found. */
  function ItemsResponse(items: seq<Item>): (r: Response<seq<Item>>)
    ensures r.HttpError? <==> items == []
    ensures r.HttpError? ==> r.status == NotFound && r.detail == NoItemsDetail
    ensures r.Ok? ==> r.body == items
  {
    if items == [] then HttpError(NotFound, NoItemsDetail) else Ok(items)
  }

  /** `GET`, `PUT` and `DELETE /items/{item_id}`: a missing row is a 404. */
  function ItemResponse(found: Option<Item>): (r: Response<Item>)
    ensures r.HttpError? <==> found.None?
    ensures r.HttpError? ==> r.status == NotFound && r.detail == ItemNotFoundDetail
    ensures r.Ok? ==> found == Some(r.body)
  {
    match found
    case None => HttpError(NotFound, ItemNotFoundDetail)
    case Some(item) => Ok(item)
  }

  /** `GET /movements/{product_id}`: only a `None` from the crud layer is a 404;
      an empty history is returned as an empty list. */
  function MovementsResponse(found: Option<seq<Movement>>): (r: Response<seq<Movement>>)
    ensures r.HttpError? <==> found.None?
    ensures r.HttpError? ==> r.status == NotFound && r.detail == NoHistoryDetail
    ensures r.Ok? ==> found == Some(r.body)
  {
    match found
    case None => HttpError(NotFound, NoHistoryDetail)
    case Some(ms) => Ok(ms)
  }

  /** `read_items`: a 404 exactly when the table is empty. */
  method ReadItems(store: Store) returns (r: Response<seq<Item>>)
    requires store.Valid()
    ensures r.HttpError? <==> store.items == map[]
    ensures r.HttpError? ==> r.status == NotFound && r.detail == NoItemsDetail
    ensures r.Ok? ==> |r.body| == |store.items|
    ensures r.Ok? ==> forall id :: id in store.items ==> store.items[id] in r.body
    ensures r.Ok? ==> forall i :: 0 <= i < |r.body| ==> r.body[i].id in store.items && store.items[r.body[i].id] == r.body[i]
  {
    var items := store.GetItems();
    r := ItemsResponse(items);
  }

  /** `read_item`: a 404 exactly when no row has the id. */
  method ReadItem(store: Store, id: int) returns (r: Response<Item>)
    requires store.Valid()
    ensures r.HttpError? <==> id !in store.items
    ensures r.HttpError? ==> r.status == NotFound && r.detail == ItemNotFoundDetail
    ensures r.Ok? ==> r.body == store.items[id]
  {
    var found := store.GetItem(id);
    r := ItemResponse(found);
  }

  /** `create_item`: never a 404. */
  method CreateItem(store: Store, c: ItemCreate, date: Date) returns (r: Response<Item>)
    requires store.Valid()
    requires WellFormedCreate(c)
    modifies store
    ensures store.Valid()
    ensures r.Ok?
    ensures r.body == Item(old(store.nextItemId), c.produto, c.unidadeMedida, c.custoMedio, c.valorVenda, c.estoque)
    ensures r.body.id !in old(store.items) && store.items == old(store.items)[r.body.id := r.body]
    ensures c.estoque > 0.0 ==>
      store.movements == old(store.movements) +
        [Movement(old(store.nextMovementId), date, Entrada, r.body.id, c.estoque, c.estoque)]
    ensures c.estoque == 0.0 ==> store.movements == old(store.movements)
    ensures store.nextItemId == old(store.nextItemId) + 1
    ensures store.nextMovementId == old(store.nextMovementId) + (if c.estoque > 0.0 then 1 else 0)
  {
    var item := store.CreateItem(c, date);
    r := Ok(item);
  }

  /** `update_item`: a 404 exactly when the id was absent, and then nothing changed. */
  method UpdateItem(store: Store, id: int, p: ItemPatch, date: Date) returns (r: Response<Item>)
    requires store.Valid()
    requires WellFormedPatch(p)
    modifies store
    ensures store.Valid()
    ensures r.HttpError? <==> id !in old(store.items)
    ensures r.HttpError? ==> r.status == NotFound && r.detail == ItemNotFoundDetail
    ensures r.HttpError? ==> store.items == old(store.items) && store.movements == old(store.movements)
    ensures r.Ok? ==> r.body == ApplyPatch(old(store.items)[id], p) && store.items == old(store.items)[id := r.body]
    ensures r.Ok? && r.body.estoque > old(store.items)[id].estoque ==>
      store.movements == old(store.movements) +
        [Movement(old(store.nextMovementId), date, Entrada, id, r.body.estoque - old(store.items)[id].estoque, r.body.estoque)]
    ensures r.Ok? && r.body.estoque < old(store.items)[id].estoque ==>
      store.movements == old(store.movements) +
        [Movement(old(store.nextMovementId), date, Saida, id, old(store.items)[id].estoque - r.body.estoque, r.body.estoque)]
    ensures r.Ok? && r.body.estoque == old(store.items)[id].estoque ==> store.movements == old(store.movements)
    ensures (r.HttpError? || r.body.estoque == old(store.items)[id].estoque) ==>
      store.nextMovementId == old(store.nextMovementId)
    ensures r.Ok? && r.body.estoque != old(store.items)[id].estoque ==>
      store.nextMovementId == old(store.nextMovementId) + 1
    ensures store.nextItemId == old(store.nextItemId)
  {
    var updated := store.UpdateItem(id, p, date);
    r := ItemResponse(updated);
  }

  /** `delete_item`: a 404 exactly when the id was absent; after a success the
      item is gone and its history is empty, so a later `GET /items/{id}` is a
      404 while `GET /movements/{id}` answers with an empty list. */
  method DeleteItem(store: Store, id: int) returns (r: Response<Item>)
    requires store.Valid()
    modifies store
    ensures store.Valid()
    ensures r.HttpError? <==> id !in old(store.items)
    ensures r.HttpError? ==> r.status == NotFound && r.detail == ItemNotFoundDetail
    ensures r.HttpError? ==> store.items == old(store.items) && store.movements == old(store.movements)
    ensures r.Ok? ==> r.body == old(store.items)[id] && store.items == old(store.items) - {id}
    ensures store.movements == Without(old(store.movements), id)
    ensures store.nextItemId == old(store.nextItemId) && store.nextMovementId == old(store.nextMovementId)
    ensures id !in store.items && MovementsOf(store.movements, id) == []
  {
    var deleted := store.DeleteItem(id);
    NothingOfRemoved(old(store.movements), id);
    r := ItemResponse(deleted);
  }

  /** `get_product_movement_history`: never a 404, since the crud layer always
      returns a list. */
  method GetProductMovementHistory(store: Store, productId: int) returns (r: Response<seq<Movement>>)
    requires store.Valid()
    ensures r.Ok?
    ensures forall m :: m in r.body <==> m in store.movements && m.produtoId == productId
    ensures r.body == MovementsOf(store.movements, productId)
  {
    var found := store.GetProductMovementHistory(productId);
    r := MovementsResponse(found);
  }
}
