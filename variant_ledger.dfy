/** The pure rules of the earlier iteration's crud layer, over its integer
    columns: the same derivation rule, its record builder, its partial update and
    the invariant its operations keep. Unlike the backend, creation always records
    an entry (of zero when the initial stock is zero) and deletion keeps the
    item's movements, so the foreign key is not kept. */
module VariantLedger {
  import opened Wrappers
  import opened Text
  import opened BackendModels
  import opened VariantModels

  function VSigned(t: MovementType, q: int): int
  {
    if t == Entrada then q else -q
  }

  /** The derivation rule of `update_item`, on integers. */
  function VDeriveMovement(before: int, after: int): (r: Option<(MovementType, int)>)
    ensures r.None? <==> before == after
    ensures r.Some? ==> r.value.1 > 0
    ensures r.Some? ==> before + VSigned(r.value.0, r.value.1) == after
    ensures r.Some? ==> (r.value.0 == Entrada <==> after > before)
  {
    if after > before then Some((Entrada, after - before))
    else if after < before then Some((Saida, before - after))
    else None
  }

  /** `create_movement_history`: the record carries the item's id and its stock
      at that moment. */
  function VMovementRecord(id: nat, date: Date, item: VItem, t: MovementType, q: int): (r: StockMovement)
    ensures r.id == id && r.data == date && r.movimentacao == t && r.quantidade == q
    ensures r.idProduto == item.id && r.estoqueFinal == item.estoque
    ensures VItemRowOk(item) ==> (StockMovementRowOk(r) <==> q >= 0)
  {
    StockMovement(id, date, t, item.id, q, item.estoque)
  }

  /** The record the variant's `create_item` always writes carries the initial
      stock as both quantity and final stock, and meets the variant's constraint
      even when that stock is zero, a row the backend's constraint would refuse. */
  lemma CreationEntryFits(id: nat, date: Date, item: VItem)
    requires VItemRowOk(item)
    ensures var m := VMovementRecord(id, date, item, Entrada, item.estoque);
      && StockMovementRowOk(m) && m.quantidade == item.estoque && m.estoqueFinal == item.estoque
      && m.idProduto == item.id
      && (item.estoque == 0 ==>
            !MovementRowOk(Movement(m.id, m.data, m.movimentacao, m.idProduto, m.quantidade as real, m.estoqueFinal as real)))
  {
  }

  // ---------------------------------------------------------------------------
  // Partial update

  /** The set fields of a variant update, already in column types. */
  datatype VItemPatch = VItemPatch(
    produto: Option<string>,
    unidadeMedida: Option<UoM>,
    custoMedio: Option<int>,
    valorVenda: Option<int>,
    estoque: Option<int>)

  ghost predicate WellFormedVPatch(p: VItemPatch)
  {
    && (p.produto.Some? ==> !AllWhitespace(p.produto.value))
    && (p.custoMedio.Some? ==> p.custoMedio.value >= 0)
    && (p.valorVenda.Some? ==> p.valorVenda.value >= 0)
    && (p.estoque.Some? ==> p.estoque.value >= 0)
  }

  datatype VFieldValue =
    | VSetProduto(produto: string)
    | VSetUnidadeMedida(unidadeMedida: UoM)
    | VSetCustoMedio(custoMedio: int)
    | VSetValorVenda(valorVenda: int)
    | VSetEstoque(estoque: int)

  function VEntry<T>(o: Option<T>, f: T -> VFieldValue): seq<VFieldValue>
  {
    if o.Some? then [f(o.value)] else []
  }

  function VDump(p: VItemPatch): seq<VFieldValue>
  {
    VEntry(p.produto, s => VSetProduto(s))
    + VEntry(p.unidadeMedida, u => VSetUnidadeMedida(u))
    + VEntry(p.custoMedio, x => VSetCustoMedio(x))
    + VEntry(p.valorVenda, x => VSetValorVenda(x))
    + VEntry(p.estoque, x => VSetEstoque(x))
  }

  function VSetAttr(it: VItem, f: VFieldValue): VItem
  {
    match f
    case VSetProduto(s) => it.(produto := s)
    case VSetUnidadeMedida(u) => it.(unidadeMedida := u)
    case VSetCustoMedio(x) => it.(custoMedio := x)
    case VSetValorVenda(x) => it.(valorVenda := x)
    case VSetEstoque(x) => it.(estoque := x)
  }

  function VSetAll(it: VItem, fs: seq<VFieldValue>): VItem
    decreases |fs|
  {
    if fs == [] then it else VSetAttr(VSetAll(it, fs[..|fs| - 1]), fs[|fs| - 1])
  }

  /** The variant's partial update: set fields take the patch's value, the others
      and the id are kept. */
  function VApplyPatch(it: VItem, p: VItemPatch): (r: VItem)
    ensures r.id == it.id
    ensures r.produto == (if p.produto.Some? then p.produto.value else it.produto)
    ensures r.unidadeMedida == (if p.unidadeMedida.Some? then p.unidadeMedida.value else it.unidadeMedida)
    ensures r.custoMedio == (if p.custoMedio.Some? then p.custoMedio.value else it.custoMedio)
    ensures r.valorVenda == (if p.valorVenda.Some? then p.valorVenda.value else it.valorVenda)
    ensures r.estoque == (if p.estoque.Some? then p.estoque.value else it.estoque)
  {
    VItem(it.id,
          if p.produto.Some? then p.produto.value else it.produto,
          if p.unidadeMedida.Some? then p.unidadeMedida.value else it.unidadeMedida,
          if p.custoMedio.Some? then p.custoMedio.value else it.custoMedio,
          if p.valorVenda.Some? then p.valorVenda.value else it.valorVenda,
          if p.estoque.Some? then p.estoque.value else it.estoque)
  }

  lemma {:induction false} VSetAllAppend(it: VItem, a: seq<VFieldValue>, b: seq<VFieldValue>)
    ensures VSetAll(it, a + b) == VSetAll(VSetAll(it, a), b)
    decreases |b|
  {
    if b == [] {
      assert a + b == a;
    } else {
      var b' := b[..|b| - 1];
      assert (a + b)[..|a + b| - 1] == a + b';
      VSetAllAppend(it, a, b');
    }
  }

  lemma VSetAllEntry<T>(it: VItem, o: Option<T>, f: T -> VFieldValue)
    ensures VSetAll(it, VEntry(o, f)) == if o.Some? then VSetAttr(it, f(o.value)) else it
  {
    if o.Some? {
      assert VEntry(o, f)[..0] == [];
    }
  }

  /** The `setattr` loop over the dump of a patch is the declarative partial update. */
  lemma VSetAllDumpIsApplyPatch(it: VItem, p: VItemPatch)
    ensures VSetAll(it, VDump(p)) == VApplyPatch(it, p)
  {
    var e1 := VEntry(p.produto, s => VSetProduto(s));
    var e2 := VEntry(p.unidadeMedida, u => VSetUnidadeMedida(u));
    var e3 := VEntry(p.custoMedio, x => VSetCustoMedio(x));
    var e4 := VEntry(p.valorVenda, x => VSetValorVenda(x));
    var e5 := VEntry(p.estoque, x => VSetEstoque(x));
    VSetAllAppend(it, e1 + e2 + e3 + e4, e5);
    VSetAllAppend(it, e1 + e2 + e3, e4);
    VSetAllAppend(it, e1 + e2, e3);
    VSetAllAppend(it, e1, e2);
    var i1 := VSetAll(it, e1);
    VSetAllEntry(it, p.produto, s => VSetProduto(s));
    VSetAllEntry(i1, p.unidadeMedida, u => VSetUnidadeMedida(u));
    var i2 := VSetAll(i1, e2);
    VSetAllEntry(i2, p.custoMedio, x => VSetCustoMedio(x));
    var i3 := VSetAll(i2, e3);
    VSetAllEntry(i3, p.valorVenda, x => VSetValorVenda(x));
    var i4 := VSetAll(i3, e4);
    VSetAllEntry(i4, p.estoque, x => VSetEstoque(x));
  }

  // ---------------------------------------------------------------------------
  // The ledger

  function VLast(ms: seq<StockMovement>): StockMovement
    requires ms != []
  {
    ms[|ms| - 1]
  }

  function VInit(ms: seq<StockMovement>): seq<StockMovement>
    requires ms != []
  {
    ms[..|ms| - 1]
  }

  function VContribution(m: StockMovement, p: int): int
  {
    if m.idProduto == p then VSigned(m.movimentacao, m.quantidade) else 0
  }

  function VSignedSum(ms: seq<StockMovement>, p: int): int
    decreases |ms|
  {
    if ms == [] then 0 else VSignedSum(VInit(ms), p) + VContribution(VLast(ms), p)
  }

  /** The movements of item `p`, in table order. */
  function VMovementsOf(ms: seq<StockMovement>, p: int): (r: seq<StockMovement>)
    ensures |r| <= |ms|
    ensures forall m :: m in r <==> m in ms && m.idProduto == p
    decreases |ms|
  {
    if ms == [] then []
    else VMovementsOf(VInit(ms), p) + (if VLast(ms).idProduto == p then [VLast(ms)] else [])
  }

  lemma VSumAppend(ms: seq<StockMovement>, m: StockMovement, p: int)
    ensures VSignedSum(ms + [m], p) == VSignedSum(ms, p) + VContribution(m, p)
  {
    assert VInit(ms + [m]) == ms;
  }

  lemma VOwnersAppend(ms: seq<StockMovement>, m: StockMovement)
    ensures VOwners(ms + [m]) == VOwners(ms) + {m.idProduto}
  {
    assert VInit(ms + [m]) == ms;
  }

  lemma {:induction false} VSumUnreferenced(ms: seq<StockMovement>, p: int)
    requires forall i :: 0 <= i < |ms| ==> ms[i].idProduto != p
    ensures VSignedSum(ms, p) == 0
    decreases |ms|
  {
    if ms != [] {
      VSumUnreferenced(VInit(ms), p);
    }
  }

  /** The ids the movements name. */
  function VOwners(ms: seq<StockMovement>): set<nat>
    decreases |ms|
  {
    if ms == [] then {} else VOwners(VInit(ms)) + {VLast(ms).idProduto}
  }

  lemma {:induction false} VOwnerAt(ms: seq<StockMovement>, id: int)
    requires id in VOwners(ms)
    ensures exists i :: 0 <= i < |ms| && ms[i].idProduto == id
    decreases |ms|
  {
    if VLast(ms).idProduto != id {
      VOwnerAt(VInit(ms), id);
      var i :| 0 <= i < |VInit(ms)| && VInit(ms)[i].idProduto == id;
      assert ms[i] == VInit(ms)[i];
    }
  }

  ghost predicate VCoherent(ms: seq<StockMovement>)
    decreases |ms|
  {
    ms == [] || (VCoherent(VInit(ms)) && VLast(ms).estoqueFinal == VSignedSum(ms, VLast(ms).idProduto))
  }

  ghost predicate VIdsIncreasing(ms: seq<StockMovement>)
  {
    forall i, j :: 0 <= i < j < |ms| ==> ms[i].id < ms[j].id
  }

  /** The variant's invariant: rows meet the (weaker) constraints, every record
      names an item that was created at some point (not necessarily one still
      stored), records are in id order, final stocks are running stocks, each
      stored item's stock is the signed sum of its movements, and each stored item
      has at least its creation entry. */
  ghost predicate VConsistent(items: map<nat, VItem>, ms: seq<StockMovement>, nextItemId: nat, nextMovementId: nat)
  {
    && (forall id :: id in items ==>
          items[id].id == id && id < nextItemId && VItemRowOk(items[id]) && !AllWhitespace(items[id].produto))
    && (forall i :: 0 <= i < |ms| ==>
          StockMovementRowOk(ms[i]) && ms[i].idProduto < nextItemId && ms[i].id < nextMovementId)
    && VIdsIncreasing(ms)
    && VCoherent(ms)
    && (forall id :: id in items ==> VSignedSum(ms, id) == items[id].estoque)
    && (forall id :: id in items ==> id in VOwners(ms))
  }

  /** The variant's `create_item` input, in column types. */
  datatype VItemFields = VItemFields(
    produto: string,
    unidadeMedida: UoM,
    custoMedio: int,
    valorVenda: int,
    estoque: int)

  ghost predicate WellFormedVFields(c: VItemFields)
  {
    !AllWhitespace(c.produto) && c.custoMedio >= 0 && c.valorVenda >= 0 && c.estoque >= 0
  }

  function VAfterCreate(items: map<nat, VItem>, ms: seq<StockMovement>, nextItemId: nat, nextMovementId: nat,
                        c: VItemFields, date: Date): (map<nat, VItem>, seq<StockMovement>, nat, nat)
  {
    var it := VItem(nextItemId, c.produto, c.unidadeMedida, c.custoMedio, c.valorVenda, c.estoque);
    (items[nextItemId := it], ms + [VMovementRecord(nextMovementId, date, it, Entrada, it.estoque)],
     nextItemId + 1, nextMovementId + 1)
  }

  lemma VCreatePreserves(items: map<nat, VItem>, ms: seq<StockMovement>, nextItemId: nat, nextMovementId: nat,
                         c: VItemFields, date: Date)
    requires VConsistent(items, ms, nextItemId, nextMovementId)
    requires WellFormedVFields(c)
    ensures var (items', ms', ni, nm) := VAfterCreate(items, ms, nextItemId, nextMovementId, c, date);
      VConsistent(items', ms', ni, nm)
  {
    var (items', ms', ni, nm) := VAfterCreate(items, ms, nextItemId, nextMovementId, c, date);
    var m := VLast(ms');
    assert VInit(ms') == ms;
    assert forall i :: 0 <= i < |ms| ==> ms[i].idProduto != nextItemId;
    VSumUnreferenced(ms, nextItemId);
    VOwnersAppend(ms, m);
    forall id | id in items'
      ensures VSignedSum(ms', id) == items'[id].estoque
    {
      VSumAppend(ms, m, id);
    }
  }

  function VAfterUpdate(items: map<nat, VItem>, ms: seq<StockMovement>, nextMovementId: nat,
                        id: int, p: VItemPatch, date: Date): (map<nat, VItem>, seq<StockMovement>, nat)
    requires id in items
  {
    var it := VApplyPatch(items[id], p);
    match VDeriveMovement(items[id].estoque, it.estoque)
    case None => (items[id := it], ms, nextMovementId)
    case Some((t, q)) =>
      (items[id := it], ms + [VMovementRecord(nextMovementId, date, it, t, q)], nextMovementId + 1)
  }

  /** What the variant's `update_item` leaves behind, case by case: the
      patched row, and an `entrada` or `saida` of the difference under the next
      movement id exactly when the stock changed. */
  lemma VUpdateOutcome(items: map<nat, VItem>, ms: seq<StockMovement>, nextMovementId: nat,
                       id: int, p: VItemPatch, date: Date)
    requires id in items && items[id].id == id
    ensures var (items', ms', nm) := VAfterUpdate(items, ms, nextMovementId, id, p, date);
      var before, it := items[id].estoque, VApplyPatch(items[id], p);
      && items' == items[id := it]
      && (it.estoque > before ==>
            ms' == ms + [StockMovement(nextMovementId, date, Entrada, id, it.estoque - before, it.estoque)]
            && nm == nextMovementId + 1)
      && (it.estoque < before ==>
            ms' == ms + [StockMovement(nextMovementId, date, Saida, id, before - it.estoque, it.estoque)]
            && nm == nextMovementId + 1)
      && (it.estoque == before ==> ms' == ms && nm == nextMovementId)
  {
  }

  lemma VApplyPatchKeepsRowOk(it: VItem, p: VItemPatch)
    requires VItemRowOk(it) && !AllWhitespace(it.produto)
    requires WellFormedVPatch(p)
    ensures VItemRowOk(VApplyPatch(it, p)) && !AllWhitespace(VApplyPatch(it, p).produto)
  {
  }

  lemma VUpdatePreserves(items: map<nat, VItem>, ms: seq<StockMovement>, nextItemId: nat, nextMovementId: nat,
                         id: int, p: VItemPatch, date: Date)
    requires VConsistent(items, ms, nextItemId, nextMovementId)
    requires id in items
    requires WellFormedVPatch(p)
    ensures var (items', ms', nm) := VAfterUpdate(items, ms, nextMovementId, id, p, date);
      VConsistent(items', ms', nextItemId, nm)
  {
    var it := VApplyPatch(items[id], p);
    VApplyPatchKeepsRowOk(items[id], p);
    var items' := items[id := it];
    match VDeriveMovement(items[id].estoque, it.estoque)
    case None =>
      assert VConsistent(items', ms, nextItemId, nextMovementId);
    case Some((t, q)) =>
      var m := VMovementRecord(nextMovementId, date, it, t, q);
      var ms' := ms + [m];
      assert VInit(ms') == ms && VLast(ms') == m;
      VOwnersAppend(ms, m);
      forall k | k in items'
        ensures VSignedSum(ms', k) == items'[k].estoque
      {
        VSumAppend(ms, m, k);
      }
      assert VCoherent(ms');
      assert VConsistent(items', ms', nextItemId, nextMovementId + 1);
  }

  /** Removing the item row alone keeps the invariant. */
  lemma VDeletePreserves(items: map<nat, VItem>, ms: seq<StockMovement>, nextItemId: nat, nextMovementId: nat, id: int)
    requires VConsistent(items, ms, nextItemId, nextMovementId)
    ensures VConsistent(items - {id}, ms, nextItemId, nextMovementId)
  {
  }

  /** Deleting a stored item leaves at least one movement (its creation entry)
      whose `id_produto` no longer names any item. */
  lemma VDeleteLeavesDangling(items: map<nat, VItem>, ms: seq<StockMovement>, nextItemId: nat, nextMovementId: nat, id: int)
    requires VConsistent(items, ms, nextItemId, nextMovementId)
    requires id in items
    ensures exists i :: 0 <= i < |ms| && ms[i].idProduto == id && ms[i].idProduto !in (items - {id})
  {
    VOwnerAt(ms, id);
  }
}
