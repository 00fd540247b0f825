/** The earlier iteration's schemas: units and movement types are string
    literals rather than enums, and the stock accepts an integer or a float and
    keeps whichever it was given. The name validator is the same test as the
    backend's, with its message stored in a mis-decoded form. */
module VariantSchema {
  import opened Wrappers
  import opened Text
  import opened BackendModels
  import opened BackendSchema

  const VariantProdutoEmptyMessage := "Produto n√£o pode ser vazio"

  /** `Union[PositiveFloat, PositiveInt]`: the number keeps the kind it was given as. */
  datatype Number = IntNum(i: int) | FloatNum(x: real)

  function NumberValue(n: Number): real
  {
    match n
    case IntNum(i) => i as real
    case FloatNum(x) => x
  }

  function ValidateNumber(f: FieldName, n: Number, zeroAllowed: bool): (r: Result<Number, SchemaError>)
    ensures NumberValue(n) < 0.0 ==> r.Failure?
    ensures NumberValue(n) > 0.0 ==> r == Success(n)
    ensures NumberValue(n) == 0.0 ==> (r.Success? <==> zeroAllowed)
    ensures r.Success? ==> r.value == n
  {
    match ValidateAmount(f, NumberValue(n), zeroAllowed)
    case Success(_) => Success(n)
    case Failure(err) => Failure(err)
  }

  /** `Literal['litro', 'metro', 'quilograma', 'metro_cubico', 'quantidade']`:
      the accepted string is kept as a string. */
  function ValidateUnitLiteral(s: string): (r: Result<string, SchemaError>)
    ensures r.Success? <==> s in {"litro", "metro", "quilograma", "metro_cubico", "quantidade"}
    ensures r.Success? ==> r.value == s
  {
    if ParseUoM(s).Some? then Success(s) else Failure(NotAMember(UnidadeMedida, s))
  }

  /** `Literal['entrada', 'saida']`. */
  function ValidateMovementLiteral(s: string): (r: Result<string, SchemaError>)
    ensures r.Success? <==> s in {"entrada", "saida"}
    ensures r.Success? ==> r.value == s
  {
    if ParseMovementType(s).Some? then Success(s) else Failure(NotAMember(Movimentacao, s))
  }

  function ValidateVariantProduto(v: string): (r: Result<string, SchemaError>)
    ensures r.Failure? <==> AllWhitespace(v)
    ensures r.Failure? ==> r.error == InvalidProduto(VariantProdutoEmptyMessage)
    ensures r.Success? ==> r.value == v
  {
    match NonBlank(v, VariantProdutoEmptyMessage)
    case Success(p) => Success(p)
    case Failure(msg) => Failure(InvalidProduto(msg))
  }

  datatype VItemCreateBody = VItemCreateBody(
    produto: string,
    unidadeMedida: string,
    custoMedio: real,
    valorVenda: real,
    estoque: Number)

  /** A validated variant `ItemCreate`; the unit stays a string. */
  datatype VItemCreate = VItemCreate(
    produto: string,
    unidadeMedida: string,
    custoMedio: real,
    valorVenda: real,
    estoque: Number)

  function ValidateVItemCreate(b: VItemCreateBody, zeroAllowed: bool): (r: Result<VItemCreate, SchemaError>)
    ensures r.Success? <==>
      && !AllWhitespace(b.produto)
      && b.unidadeMedida in {"litro", "metro", "quilograma", "metro_cubico", "quantidade"}
      && AcceptsAmount(b.custoMedio, zeroAllowed)
      && AcceptsAmount(b.valorVenda, zeroAllowed)
      && AcceptsAmount(NumberValue(b.estoque), zeroAllowed)
    ensures r.Success? ==> r.value == VItemCreate(b.produto, b.unidadeMedida, b.custoMedio, b.valorVenda, b.estoque)
  {
    var p := ValidateVariantProduto(b.produto);
    var u := ValidateUnitLiteral(b.unidadeMedida);
    var c := ValidateAmount(CustoMedio, b.custoMedio, zeroAllowed);
    var v := ValidateAmount(ValorVenda, b.valorVenda, zeroAllowed);
    var e := ValidateNumber(Estoque, b.estoque, zeroAllowed);
    if p.Failure? then Failure(p.error)
    else if u.Failure? then Failure(u.error)
    else if c.Failure? then Failure(c.error)
    else if v.Failure? then Failure(v.error)
    else if e.Failure? then Failure(e.error)
    else Success(VItemCreate(p.value, u.value, c.value, v.value, e.value))
  }

  /** The two iterations accept the same create requests: a variant body is
      accepted exactly when the backend accepts the same body with the stock read
      as a float, and the accepted unit string names the backend's enum member. */
  lemma CreateAcceptanceAgrees(b: VItemCreateBody, zeroAllowed: bool)
    ensures ValidateVItemCreate(b, zeroAllowed).Success? <==>
      ValidateItemCreate(ItemCreateBody(b.produto, b.unidadeMedida, b.custoMedio, b.valorVenda, NumberValue(b.estoque)), zeroAllowed).Success?
    ensures ValidateVItemCreate(b, zeroAllowed).Success? ==>
      ValidateItemCreate(ItemCreateBody(b.produto, b.unidadeMedida, b.custoMedio, b.valorVenda, NumberValue(b.estoque)), zeroAllowed).value.unidadeMedida
        == ParseUoM(b.unidadeMedida).value
  {
    var bb := ItemCreateBody(b.produto, b.unidadeMedida, b.custoMedio, b.valorVenda, NumberValue(b.estoque));
    var r := ValidateItemCreate(bb, zeroAllowed);
    if r.Success? {
      ParseUoMValue(r.value.unidadeMedida);
    }
  }

  /** An update body: `None` means the key is absent. */
  datatype VItemUpdateBody = VItemUpdateBody(
    produto: Option<string>,
    unidadeMedida: Option<string>,
    custoMedio: Option<real>,
    valorVenda: Option<real>,
    estoque: Option<Number>)

  /** The set fields of a validated variant `ItemUpdate`. */
  datatype VItemPatchIn = VItemPatchIn(
    produto: Option<string>,
    unidadeMedida: Option<string>,
    custoMedio: Option<real>,
    valorVenda: Option<real>,
    estoque: Option<Number>)

  /** As in the backend, `produto` and `unidade_medida` are `Optional` without a
      default (required keys) and the amounts default to `None`. */
  function ValidateVItemUpdate(b: VItemUpdateBody, zeroAllowed: bool): (r: Result<VItemPatchIn, SchemaError>)
    ensures b.produto.None? ==> r == Failure(MissingField(Produto))
    ensures r.Success? <==>
      && b.produto.Some? && !AllWhitespace(b.produto.value)
      && b.unidadeMedida.Some? && b.unidadeMedida.value in {"litro", "metro", "quilograma", "metro_cubico", "quantidade"}
      && (b.custoMedio.Some? ==> AcceptsAmount(b.custoMedio.value, zeroAllowed))
      && (b.valorVenda.Some? ==> AcceptsAmount(b.valorVenda.value, zeroAllowed))
      && (b.estoque.Some? ==> AcceptsAmount(NumberValue(b.estoque.value), zeroAllowed))
    ensures r.Success? ==>
      r.value == VItemPatchIn(b.produto, b.unidadeMedida, b.custoMedio, b.valorVenda, b.estoque)
  {
    if b.produto.None? then Failure(MissingField(Produto))
    else
      var p := ValidateVariantProduto(b.produto.value);
      if p.Failure? then Failure(p.error)
      else if b.unidadeMedida.None? then Failure(MissingField(UnidadeMedida))
      else
        var u := ValidateUnitLiteral(b.unidadeMedida.value);
        var c := ValidateOptionalAmount(CustoMedio, b.custoMedio, zeroAllowed);
        var v := ValidateOptionalAmount(ValorVenda, b.valorVenda, zeroAllowed);
        var e: Result<Option<Number>, SchemaError> :=
          match b.estoque
          case None => Success(None)
          case Some(n) =>
            (match ValidateNumber(Estoque, n, zeroAllowed)
             case Success(n') => Success(Some(n'))
             case Failure(err) => Failure(err));
        if u.Failure? then Failure(u.error)
        else if c.Failure? then Failure(c.error)
        else if v.Failure? then Failure(v.error)
        else if e.Failure? then Failure(e.error)
        else Success(VItemPatchIn(Some(p.value), Some(u.value), c.value, v.value, e.value))
  }

  /** A movement record as the variant's `MovementHistorySchema` receives it. */
  datatype VMovementRecord = VMovementRecord(
    data: Date,
    movimentacao: string,
    produtoId: int,
    quantidade: Number,
    estoqueFinal: Number)

  function ValidateVMovementRecord(m: VMovementRecord, zeroAllowed: bool): (r: Result<VMovementRecord, SchemaError>)
    ensures r.Success? <==>
      && m.movimentacao in {"entrada", "saida"}
      && AcceptsAmount(NumberValue(m.quantidade), zeroAllowed)
      && AcceptsAmount(NumberValue(m.estoqueFinal), zeroAllowed)
    ensures r.Success? ==> r.value == m
  {
    var t := ValidateMovementLiteral(m.movimentacao);
    var q := ValidateNumber(FieldName.Quantidade, m.quantidade, zeroAllowed);
    var e := ValidateNumber(EstoqueFinal, m.estoqueFinal, zeroAllowed);
    if t.Failure? then Failure(t.error)
    else if q.Failure? then Failure(q.error)
    else if e.Failure? then Failure(e.error)
    else Success(m)
  }
}
