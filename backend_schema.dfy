/** The backend's request and record schemas: `ItemSchema` with its name
    validator, `ItemCreate`, `ItemUpdate` and `MovementHistorySchema`.

    Whether a `PositiveFloat` field declared with `ge=0` admits zero is left open:
    every check takes `zeroAllowed`, and negative values are rejected and positive
    ones accepted under either reading. */
module BackendSchema {
  import opened Wrappers
  import opened Text
  import opened BackendModels

  const ProdutoEmptyMessage := "Produto não pode ser vazio"

  datatype FieldName = Produto | UnidadeMedida | CustoMedio | ValorVenda | Estoque | Movimentacao | Quantidade | EstoqueFinal

  datatype SchemaError =
    | InvalidProduto(message: string)
    | NotAMember(field: FieldName, given: string)
    | OutOfRange(field: FieldName, amount: real)
    | MissingField(field: FieldName)

  predicate AcceptsAmount(x: real, zeroAllowed: bool)
  {
    x > 0.0 || (zeroAllowed && x == 0.0)
  }

  /** A `PositiveFloat = Field(..., ge=0)` field. */
  function ValidateAmount(f: FieldName, x: real, zeroAllowed: bool): (r: Result<real, SchemaError>)
    ensures x < 0.0 ==> r == Failure(OutOfRange(f, x))
    ensures x > 0.0 ==> r == Success(x)
    ensures x == 0.0 ==> (r.Success? <==> zeroAllowed)
    ensures r.Success? ==> r.value == x
  {
    if AcceptsAmount(x, zeroAllowed) then Success(x) else Failure(OutOfRange(f, x))
  }

  /** A `UoMType` field: only the five values are accepted, and the member returned
      carries exactly the given string. */
  function ValidateUnit(s: string): (r: Result<UoM, SchemaError>)
    ensures r.Success? <==> s in {"litro", "metro", "quilograma", "metro_cubico", "quantidade"}
    ensures r.Success? ==> UoMValue(r.value) == s
    ensures r.Failure? ==> r.error == NotAMember(UnidadeMedida, s)
  {
    match ParseUoM(s)
    case Some(u) => Success(u)
    case None => Failure(NotAMember(UnidadeMedida, s))
  }

  /** `produto_must_not_be_empty`. */
  function ValidateProduto(v: string): (r: Result<string, SchemaError>)
    ensures r.Failure? <==> AllWhitespace(v)
    ensures r.Failure? ==> r.error == InvalidProduto(ProdutoEmptyMessage)
    ensures r.Success? ==> r.value == v
  {
    match NonBlank(v, ProdutoEmptyMessage)
    case Success(p) => Success(p)
    case Failure(msg) => Failure(InvalidProduto(msg))
  }

  /** The body of a create request as received, before validation. */
  datatype ItemCreateBody = ItemCreateBody(
    produto: string,
    unidadeMedida: string,
    custoMedio: real,
    valorVenda: real,
    estoque: real)

  /** A validated `ItemCreate`. */
  datatype ItemCreate = ItemCreate(
    produto: string,
    unidadeMedida: UoM,
    custoMedio: real,
    valorVenda: real,
    estoque: real)

  /** What every validated `ItemCreate` satisfies, whichever reading of zero applies. */
  ghost predicate WellFormedCreate(c: ItemCreate)
  {
    !AllWhitespace(c.produto) && c.custoMedio >= 0.0 && c.valorVenda >= 0.0 && c.estoque >= 0.0
  }

  /** Validation of a create request: every field is required. The first failing
      field, in declaration order, is reported. */
  function ValidateItemCreate(b: ItemCreateBody, zeroAllowed: bool): (r: Result<ItemCreate, SchemaError>)
    ensures r.Success? <==>
      && !AllWhitespace(b.produto)
      && ParseUoM(b.unidadeMedida).Some?
      && AcceptsAmount(b.custoMedio, zeroAllowed)
      && AcceptsAmount(b.valorVenda, zeroAllowed)
      && AcceptsAmount(b.estoque, zeroAllowed)
    ensures r.Success? ==>
      && r.value.produto == b.produto
      && UoMValue(r.value.unidadeMedida) == b.unidadeMedida
      && r.value.custoMedio == b.custoMedio
      && r.value.valorVenda == b.valorVenda
      && r.value.estoque == b.estoque
    ensures r.Success? ==> WellFormedCreate(r.value)
  {
    var p := ValidateProduto(b.produto);
    var u := ValidateUnit(b.unidadeMedida);
    var c := ValidateAmount(CustoMedio, b.custoMedio, zeroAllowed);
    var v := ValidateAmount(ValorVenda, b.valorVenda, zeroAllowed);
    var e := ValidateAmount(Estoque, b.estoque, zeroAllowed);
    if p.Failure? then Failure(p.error)
    else if u.Failure? then Failure(u.error)
    else if c.Failure? then Failure(c.error)
    else if v.Failure? then Failure(v.error)
    else if e.Failure? then Failure(e.error)
    else Success(ItemCreate(p.value, u.value, c.value, v.value, e.value))
  }

  /** The body of an update request as received: `None` means the key is absent. */
  datatype ItemUpdateBody = ItemUpdateBody(
    produto: Option<string>,
    unidadeMedida: Option<string>,
    custoMedio: Option<real>,
    valorVenda: Option<real>,
    estoque: Option<real>)

  /** A validated `ItemUpdate` as `model_dump(exclude_unset=True)` sees it:
      `None` means the field was not set and is left out of the dump. */
  datatype ItemPatch = ItemPatch(
    produto: Option<string>,
    unidadeMedida: Option<UoM>,
    custoMedio: Option<real>,
    valorVenda: Option<real>,
    estoque: Option<real>)

  ghost predicate WellFormedPatch(p: ItemPatch)
  {
    && (p.produto.Some? ==> !AllWhitespace(p.produto.value))
    && (p.custoMedio.Some? ==> p.custoMedio.value >= 0.0)
    && (p.valorVenda.Some? ==> p.valorVenda.value >= 0.0)
    && (p.estoque.Some? ==> p.estoque.value >= 0.0)
  }

  /** An optional amount with default `None`: absent stays unset. */
  function ValidateOptionalAmount(f: FieldName, x: Option<real>, zeroAllowed: bool): (r: Result<Option<real>, SchemaError>)
    ensures x.None? ==> r == Success(None)
    ensures x.Some? ==> (r.Success? <==> AcceptsAmount(x.value, zeroAllowed))
    ensures r.Success? ==> r.value == x
  {
    match x
    case None => Success(None)
    case Some(a) =>
      match ValidateAmount(f, a, zeroAllowed)
      case Success(a') => Success(Some(a'))
      case Failure(err) => Failure(err)
  }

  /** Validation of an update request. `produto` and `unidade_medida` are
      `Optional` without a default, which makes their keys required; the three
      amounts default to `None` and may be left out. The inherited name
      validator applies to `produto`. */
  function ValidateItemUpdate(b: ItemUpdateBody, zeroAllowed: bool): (r: Result<ItemPatch, SchemaError>)
    ensures b.produto.None? ==> r == Failure(MissingField(Produto))
    ensures b.produto.Some? && b.unidadeMedida.None? && !AllWhitespace(b.produto.value) ==>
      r == Failure(MissingField(UnidadeMedida))
    ensures r.Success? <==>
      && b.produto.Some? && !AllWhitespace(b.produto.value)
      && b.unidadeMedida.Some? && ParseUoM(b.unidadeMedida.value).Some?
      && (b.custoMedio.Some? ==> AcceptsAmount(b.custoMedio.value, zeroAllowed))
      && (b.valorVenda.Some? ==> AcceptsAmount(b.valorVenda.value, zeroAllowed))
      && (b.estoque.Some? ==> AcceptsAmount(b.estoque.value, zeroAllowed))
    ensures r.Success? ==>
      && r.value.produto == b.produto
      && r.value.unidadeMedida.Some? && UoMValue(r.value.unidadeMedida.value) == b.unidadeMedida.value
      && r.value.custoMedio == b.custoMedio
      && r.value.valorVenda == b.valorVenda
      && r.value.estoque == b.estoque
    ensures r.Success? ==> WellFormedPatch(r.value)
  {
    if b.produto.None? then Failure(MissingField(Produto))
    else
      var p := ValidateProduto(b.produto.value);
      if p.Failure? then Failure(p.error)
      else if b.unidadeMedida.None? then Failure(MissingField(UnidadeMedida))
      else
        var u := ValidateUnit(b.unidadeMedida.value);
        var c := ValidateOptionalAmount(CustoMedio, b.custoMedio, zeroAllowed);
        var v := ValidateOptionalAmount(ValorVenda, b.valorVenda, zeroAllowed);
        var e := ValidateOptionalAmount(Estoque, b.estoque, zeroAllowed);
        if u.Failure? then Failure(u.error)
        else if c.Failure? then Failure(c.error)
        else if v.Failure? then Failure(v.error)
        else if e.Failure? then Failure(e.error)
        else Success(ItemPatch(Some(p.value), Some(u.value), c.value, v.value, e.value))
  }

  /** `MovementHistorySchema` applied to a stored record (it is the response model
      of the movements route): the type is a `MovementType` by construction, and
      both amounts must be accepted. */
  function ValidateMovementRecord(m: Movement, zeroAllowed: bool): (r: Result<Movement, SchemaError>)
    ensures r.Success? <==> AcceptsAmount(m.quantidade, zeroAllowed) && AcceptsAmount(m.estoqueFinal, zeroAllowed)
    ensures r.Success? ==> r.value == m
    ensures m.quantidade < 0.0 || m.estoqueFinal < 0.0 ==> r.Failure?
  {
    var q := ValidateAmount(FieldName.Quantidade, m.quantidade, zeroAllowed);
    var e := ValidateAmount(EstoqueFinal, m.estoqueFinal, zeroAllowed);
    if q.Failure? then Failure(q.error)
    else if e.Failure? then Failure(e.error)
    else Success(m)
  }

  /** A row that meets the table's constraints always passes the record schema
      when zero is admitted; when it is not, it passes exactly when its final stock
      is positive (the quantity is positive already). */
  lemma StoredMovementPassesSchema(m: Movement, zeroAllowed: bool)
    requires MovementRowOk(m)
    ensures zeroAllowed ==> ValidateMovementRecord(m, zeroAllowed) == Success(m)
    ensures !zeroAllowed ==> (ValidateMovementRecord(m, zeroAllowed).Success? <==> m.estoqueFinal > 0.0)
  {
  }
}
