/** The earlier iteration's ORM records (`items`, `stock_movements`). It declares
    the same five units and two movement types as the backend, so their
    datatypes are shared; its columns are integers and its movement constraint
    is weaker. */
module VariantModels {
  import opened Wrappers
  import opened BackendModels

  /** A row of the variant's `items`, on Integer columns. */
  datatype VItem = VItem(
    id: nat,
    produto: string,
    unidadeMedida: UoM,
    custoMedio: int,
    valorVenda: int,
    estoque: int)

  /** A row of `stock_movements`; the owning item is held in `id_produto`. */
  datatype StockMovement = StockMovement(
    id: nat,
    data: Date,
    movimentacao: MovementType,
    idProduto: nat,
    quantidade: int,
    estoqueFinal: int)

  /** average_cost_positive, sale_value_positive, stock_positive. */
  predicate VItemRowOk(it: VItem)
  {
    it.custoMedio >= 0 && it.valorVenda >= 0 && it.estoque >= 0
  }

  /** quantity_positive (`quantidade >= 0`, zero allowed) and final_stock_positive. */
  predicate StockMovementRowOk(m: StockMovement)
  {
    m.quantidade >= 0 && m.estoqueFinal >= 0
  }

  /** The variant's movement constraint is strictly weaker than the backend's:
      every row the backend accepts it accepts, and a zero-quantity row is
      accepted here but rejected by the backend. */
  lemma ZeroQuantityOnlyInVariant(m: StockMovement)
    ensures StockMovementRowOk(m) && m.quantidade == 0 ==>
      !MovementRowOk(Movement(m.id, m.data, m.movimentacao, m.idProduto, m.quantidade as real, m.estoqueFinal as real))
    ensures MovementRowOk(Movement(m.id, m.data, m.movimentacao, m.idProduto, m.quantidade as real, m.estoqueFinal as real))
      ==> StockMovementRowOk(m)
  {
  }

  /** `Item.to_dict` of the variant. */
  function VItemToDict(it: VItem): (d: map<string, Value>)
    ensures d.Keys == {"id", "produto", "unidade_medida", "custo_medio", "valor_venda", "estoque"}
  {
    map[
      "id" := VInt(it.id),
      "produto" := VStr(it.produto),
      "unidade_medida" := VStr(UoMValue(it.unidadeMedida)),
      "custo_medio" := VInt(it.custoMedio),
      "valor_venda" := VInt(it.valorVenda),
      "estoque" := VInt(it.estoque)]
  }

  function VItemFromDict(d: map<string, Value>): Option<VItem>
  {
    if && "id" in d && d["id"].VInt? && d["id"].i >= 0
       && "produto" in d && d["produto"].VStr?
       && "unidade_medida" in d && d["unidade_medida"].VStr?
       && ParseUoM(d["unidade_medida"].s).Some?
       && "custo_medio" in d && d["custo_medio"].VInt?
       && "valor_venda" in d && d["valor_venda"].VInt?
       && "estoque" in d && d["estoque"].VInt?
    then Some(VItem(d["id"].i, d["produto"].s, ParseUoM(d["unidade_medida"].s).value,
                    d["custo_medio"].i, d["valor_venda"].i, d["estoque"].i))
    else None
  }

  lemma VItemDictRoundTrip(it: VItem)
    ensures VItemFromDict(VItemToDict(it)) == Some(it)
  {
    ParseUoMValue(it.unidadeMedida);
  }

  /** `StockMovement.to_dict`: the owner is under `id_produto`, the date as its
      ISO text. */
  function StockMovementToDict(m: StockMovement): (d: map<string, Value>)
    ensures d.Keys == {"id", "data", "movimentacao", "id_produto", "quantidade", "estoque_final"}
  {
    map[
      "id" := VInt(m.id),
      "data" := VIsoText(m.data),
      "movimentacao" := VStr(MovementTypeValue(m.movimentacao)),
      "id_produto" := VInt(m.idProduto),
      "quantidade" := VInt(m.quantidade),
      "estoque_final" := VInt(m.estoqueFinal)]
  }

  function StockMovementFromDict(d: map<string, Value>): Option<StockMovement>
  {
    if && "id" in d && d["id"].VInt? && d["id"].i >= 0
       && "data" in d && d["data"].VIsoText?
       && "movimentacao" in d && d["movimentacao"].VStr?
       && ParseMovementType(d["movimentacao"].s).Some?
       && "id_produto" in d && d["id_produto"].VInt? && d["id_produto"].i >= 0
       && "quantidade" in d && d["quantidade"].VInt?
       && "estoque_final" in d && d["estoque_final"].VInt?
    then Some(StockMovement(d["id"].i, d["data"].iso, ParseMovementType(d["movimentacao"].s).value,
                            d["id_produto"].i, d["quantidade"].i, d["estoque_final"].i))
    else None
  }

  lemma StockMovementDictRoundTrip(m: StockMovement)
    ensures StockMovementFromDict(StockMovementToDict(m)) == Some(m)
  {
    ParseMovementTypeValue(m.movimentacao);
  }

  /** A variant movement dictionary is not a backend one: the backend's reader
      finds no `produto_id` in it and rejects it. */
  lemma VariantMovementDictNotBackend(m: StockMovement)
    ensures "produto_id" !in StockMovementToDict(m)
    ensures MovementFromDict(StockMovementToDict(m)).None?
  {
  }
}
