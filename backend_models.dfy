/** The backend's ORM records (`items`, `stock_movements_history`), their enums,
    their check constraints and their `to_dict` renderings. */
module BackendModels {
  import opened Wrappers

  /** `UoMType`: the closed set of units of measure. */
  datatype UoM = Litro | Metro | Quilograma | MetroCubico | Quantidade

  /** `MovementType`: a stock entry or a stock exit. */
  datatype MovementType = Entrada | Saida

  /** The string value each unit carries (`UoMType.X.value`). */
  function UoMValue(u: UoM): string
  {
    match u
    case Litro => "litro"
    case Metro => "metro"
    case Quilograma => "quilograma"
    case MetroCubico => "metro_cubico"
    case Quantidade => "quantidade"
  }

  /** The string value each movement type carries (`MovementType.X.value`). */
  function MovementTypeValue(t: MovementType): string
  {
    match t
    case Entrada => "entrada"
    case Saida => "saida"
  }

  /** The enum member a string names, if any: how a value is turned back into a
      `UoMType` at the boundary. */
  function ParseUoM(s: string): (r: Option<UoM>)
    ensures r.Some? ==> UoMValue(r.value) == s
    ensures r.Some? <==> s in {"litro", "metro", "quilograma", "metro_cubico", "quantidade"}
  {
    if s == "litro" then Some(Litro)
    else if s == "metro" then Some(Metro)
    else if s == "quilograma" then Some(Quilograma)
    else if s == "metro_cubico" then Some(MetroCubico)
    else if s == "quantidade" then Some(Quantidade)
    else None
  }

  function ParseMovementType(s: string): (r: Option<MovementType>)
    ensures r.Some? ==> MovementTypeValue(r.value) == s
    ensures r.Some? <==> s in {"entrada", "saida"}
  {
    if s == "entrada" then Some(Entrada)
    else if s == "saida" then Some(Saida)
    else None
  }

  /** Every unit is recovered from its string value, so the values are pairwise distinct. */
  lemma ParseUoMValue(u: UoM)
    ensures ParseUoM(UoMValue(u)) == Some(u)
  {
    match u
    case Litro =>
    case Metro =>
    case Quilograma =>
    case MetroCubico =>
    case Quantidade =>
  }

  lemma ParseMovementTypeValue(t: MovementType)
    ensures ParseMovementType(MovementTypeValue(t)) == Some(t)
  {
  }

  /** The movement date is produced by the database (`current_date()`); the model
      treats it as an opaque stamp supplied by the caller. */
  datatype Date = Date(stamp: int)

  /** A row of `items`. `produto`, `unidade_medida` and `estoque` are NOT NULL.
      `custo_medio` and `valor_venda` are nullable columns; the model keeps them
      non-null, because explicit nulls (a JSON `null` that `update_item` stores
      with `setattr`) are not modelled. */
  datatype Item = Item(
    id: nat,
    produto: string,
    unidadeMedida: UoM,
    custoMedio: real,
    valorVenda: real,
    estoque: real)

  /** A row of `stock_movements_history`. */
  datatype Movement = Movement(
    id: nat,
    data: Date,
    movimentacao: MovementType,
    produtoId: nat,
    quantidade: real,
    estoqueFinal: real)

  /** The check constraints of `items`: average_cost_positive, sale_value_positive,
      stock_positive. */
  predicate ItemRowOk(it: Item)
  {
    it.custoMedio >= 0.0 && it.valorVenda >= 0.0 && it.estoque >= 0.0
  }

  /** The check constraints of `stock_movements_history`: quantity_greater_zero
      (strict) and final_stock_positive. */
  predicate MovementRowOk(m: Movement)
  {
    m.quantidade > 0.0 && m.estoqueFinal >= 0.0
  }

  /** The foreign key `produto_id -> items.id` against a given set of item ids. */
  predicate MovementRefersTo(m: Movement, itemIds: set<nat>)
  {
    m.produtoId in itemIds
  }

  /** A value of a `to_dict` dictionary. */
  datatype Value = VInt(i: int) | VReal(r: real) | VStr(s: string) | VDate(d: Date) | VIsoText(iso: Date)

  /** `Item.to_dict`. */
  function ItemToDict(it: Item): (d: map<string, Value>)
    ensures d.Keys == {"id", "produto", "unidade_medida", "custo_medio", "valor_venda", "estoque"}
  {
    map[
      "id" := VInt(it.id),
      "produto" := VStr(it.produto),
      "unidade_medida" := VStr(UoMValue(it.unidadeMedida)),
      "custo_medio" := VReal(it.custoMedio),
      "valor_venda" := VReal(it.valorVenda),
      "estoque" := VReal(it.estoque)]
  }

  /** Reads an item back from its dictionary; `None` when a key is missing or
      holds a value of the wrong shape. */
  function ItemFromDict(d: map<string, Value>): Option<Item>
  {
    if && "id" in d && d["id"].VInt? && d["id"].i >= 0
       && "produto" in d && d["produto"].VStr?
       && "unidade_medida" in d && d["unidade_medida"].VStr?
       && ParseUoM(d["unidade_medida"].s).Some?
       && "custo_medio" in d && d["custo_medio"].VReal?
       && "valor_venda" in d && d["valor_venda"].VReal?
       && "estoque" in d && d["estoque"].VReal?
    then Some(Item(d["id"].i, d["produto"].s, ParseUoM(d["unidade_medida"].s).value,
                   d["custo_medio"].r, d["valor_venda"].r, d["estoque"].r))
    else None
  }

  /** `Item.to_dict` loses nothing: every field, and the unit through its string
      value, is recovered from the dictionary. */
  lemma ItemDictRoundTrip(it: Item)
    ensures ItemFromDict(ItemToDict(it)) == Some(it)
  {
    ParseUoMValue(it.unidadeMedida);
  }

  /** `StockMovementHistory.to_dict`. */
  function MovementToDict(m: Movement): (d: map<string, Value>)
    ensures d.Keys == {"id", "data", "movimentacao", "produto_id", "quantidade", "estoque_final"}
  {
    map[
      "id" := VInt(m.id),
      "data" := VDate(m.data),
      "movimentacao" := VStr(MovementTypeValue(m.movimentacao)),
      "produto_id" := VInt(m.produtoId),
      "quantidade" := VReal(m.quantidade),
      "estoque_final" := VReal(m.estoqueFinal)]
  }

  function MovementFromDict(d: map<string, Value>): Option<Movement>
  {
    if && "id" in d && d["id"].VInt? && d["id"].i >= 0
       && "data" in d && d["data"].VDate?
       && "movimentacao" in d && d["movimentacao"].VStr?
       && ParseMovementType(d["movimentacao"].s).Some?
       && "produto_id" in d && d["produto_id"].VInt? && d["produto_id"].i >= 0
       && "quantidade" in d && d["quantidade"].VReal?
       && "estoque_final" in d && d["estoque_final"].VReal?
    then Some(Movement(d["id"].i, d["data"].d, ParseMovementType(d["movimentacao"].s).value,
                       d["produto_id"].i, d["quantidade"].r, d["estoque_final"].r))
    else None
  }

  /** `StockMovementHistory.to_dict` loses nothing. */
  lemma MovementDictRoundTrip(m: Movement)
    ensures MovementFromDict(MovementToDict(m)) == Some(m)
  {
    ParseMovementTypeValue(m.movimentacao);
  }
}
