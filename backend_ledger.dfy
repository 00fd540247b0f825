/** The pure rules of the backend's crud layer: the movement derivation, the
    record built by `create_movement_history`, the partial-update patch, and the
    ledger functions (per-item selection, cascade removal, signed sums) together
    with the store invariant they keep. */
module BackendLedger {
  import opened Wrappers
  import opened Text
  import opened BackendModels
  import opened BackendSchema

  // ---------------------------------------------------------------------------
  // The movement derivation rule

  /** The effect a movement of type `t` and magnitude `q` has on the stock. */
  function Signed(t: MovementType, q: real): real
  {
    if t == Entrada then q else -q
  }

  /** Compares the stock before and after a write: an `ENTRADA` of the increase,
      a `SAIDA` of the decrease, or nothing when the stock did not change. */
  function DeriveMovement(before: real, after: real): (r: Option<(MovementType, real)>)
    ensures r.None? <==> before == after
    ensures r.Some? ==> r.value.1 > 0.0
    ensures r.Some? ==> before + Signed(r.value.0, r.value.1) == after
    ensures r.Some? ==> (r.value.0 == Entrada <==> after > before)
  {
    if after > before then Some((Entrada, after - before))
    else if after < before then Some((Saida, before - after))
    else None
  }

  /** Creation emits its entry when the initial stock is positive; on a
      non-negative stock this is the derivation rule applied from zero. */
  lemma CreationIsDerivationFromZero(estoque: real)
    requires estoque >= 0.0
    ensures estoque > 0.0 ==> DeriveMovement(0.0, estoque) == Some((Entrada, estoque))
    ensures estoque == 0.0 ==> DeriveMovement(0.0, estoque).None?
  {
  }

  /** `create_movement_history`: the record points at the item and carries the
      item's stock at that moment as its final stock. */
  function MovementRecord(id: nat, date: Date, item: Item, t: MovementType, q: real): (r: Movement)
    ensures r.id == id && r.data == date && r.movimentacao == t && r.quantidade == q
    ensures r.produtoId == item.id && r.estoqueFinal == item.estoque
    ensures ItemRowOk(item) ==> (MovementRowOk(r) <==> q > 0.0)
  {
    Movement(id, date, t, item.id, q, item.estoque)
  }

  /** A record derived from a change to a valid row meets the table's constraints
      and records the new stock. */
  lemma DerivedRecordFits(id: nat, date: Date, before: real, item: Item)
    requires ItemRowOk(item)
    requires DeriveMovement(before, item.estoque).Some?
    ensures var (t, q) := DeriveMovement(before, item.estoque).value;
      && MovementRowOk(MovementRecord(id, date, item, t, q))
      && MovementRecord(id, date, item, t, q).estoqueFinal == item.estoque
      && MovementRecord(id, date, item, t, q).produtoId == item.id
  {
  }

  // ---------------------------------------------------------------------------
  // Partial update

  /** One entry of `model_dump(exclude_unset=True)`: a field name with its value. */
  datatype FieldValue =
    | SetProduto(produto: string)
    | SetUnidadeMedida(unidadeMedida: UoM)
    | SetCustoMedio(custoMedio: real)
    | SetValorVenda(valorVenda: real)
    | SetEstoque(estoque: real)

  function Entry<T>(o: Option<T>, f: T -> FieldValue): seq<FieldValue>
  {
    if o.Some? then [f(o.value)] else []
  }

  /** The set fields of a patch, in declaration order. */
  function Dump(p: ItemPatch): seq<FieldValue>
  {
    Entry(p.produto, s => SetProduto(s))
    + Entry(p.unidadeMedida, u => SetUnidadeMedida(u))
    + Entry(p.custoMedio, x => SetCustoMedio(x))
    + Entry(p.valorVenda, x => SetValorVenda(x))
    + Entry(p.estoque, x => SetEstoque(x))
  }

  /** `setattr(item, key, value)`. */
  function SetAttr(it: Item, f: FieldValue): Item
  {
    match f
    case SetProduto(s) => it.(produto := s)
    case SetUnidadeMedida(u) => it.(unidadeMedida := u)
    case SetCustoMedio(x) => it.(custoMedio := x)
    case SetValorVenda(x) => it.(valorVenda := x)
    case SetEstoque(x) => it.(estoque := x)
  }

  /** The `setattr` loop run over a list of entries, first to last. */
  function SetAll(it: Item, fs: seq<FieldValue>): Item
    decreases |fs|
  {
    if fs == [] then it else SetAttr(SetAll(it, fs[..|fs| - 1]), fs[|fs| - 1])
  }

  /** The declarative reading of a partial update: a field takes the patch's value
      when it was set and keeps its old value otherwise; the id never changes. */
  function ApplyPatch(it: Item, p: ItemPatch): (r: Item)
    ensures r.id == it.id
    ensures r.produto == (if p.produto.Some? then p.produto.value else it.produto)
    ensures r.unidadeMedida == (if p.unidadeMedida.Some? then p.unidadeMedida.value else it.unidadeMedida)
    ensures r.custoMedio == (if p.custoMedio.Some? then p.custoMedio.value else it.custoMedio)
    ensures r.valorVenda == (if p.valorVenda.Some? then p.valorVenda.value else it.valorVenda)
    ensures r.estoque == (if p.estoque.Some? then p.estoque.value else it.estoque)
  {
    Item(it.id,
         if p.produto.Some? then p.produto.value else it.produto,
         if p.unidadeMedida.Some? then p.unidadeMedida.value else it.unidadeMedida,
         if p.custoMedio.Some? then p.custoMedio.value else it.custoMedio,
         if p.valorVenda.Some? then p.valorVenda.value else it.valorVenda,
         if p.estoque.Some? then p.estoque.value else it.estoque)
  }

  lemma {:induction false} SetAllAppend(it: Item, a: seq<FieldValue>, b: seq<FieldValue>)
    ensures SetAll(it, a + b) == SetAll(SetAll(it, a), b)
    decreases |b|
  {
    if b == [] {
      assert a + b == a;
    } else {
      var b' := b[..|b| - 1];
      assert (a + b)[..|a + b| - 1] == a + b';
      SetAllAppend(it, a, b');
    }
  }

  lemma SetAllEntry<T>(it: Item, o: Option<T>, f: T -> FieldValue)
    ensures SetAll(it, Entry(o, f)) == if o.Some? then SetAttr(it, f(o.value)) else it
  {
    if o.Some? {
      assert Entry(o, f)[..0] == [];
    }
  }

  /** Running the `setattr` loop over the dump of a patch is the declarative
      partial update. */
  lemma SetAllDumpIsApplyPatch(it: Item, p: ItemPatch)
    ensures SetAll(it, Dump(p)) == ApplyPatch(it, p)
  {
    var e1 := Entry(p.produto, s => SetProduto(s));
    var e2 := Entry(p.unidadeMedida, u => SetUnidadeMedida(u));
    var e3 := Entry(p.custoMedio, x => SetCustoMedio(x));
    var e4 := Entry(p.valorVenda, x => SetValorVenda(x));
    var e5 := Entry(p.estoque, x => SetEstoque(x));
    SetAllAppend(it, e1 + e2 + e3 + e4, e5);
    SetAllAppend(it, e1 + e2 + e3, e4);
    SetAllAppend(it, e1 + e2, e3);
    SetAllAppend(it, e1, e2);
    var i1 := SetAll(it, e1);
    SetAllEntry(it, p.produto, s => SetProduto(s));
    SetAllEntry(i1, p.unidadeMedida, u => SetUnidadeMedida(u));
    var i2 := SetAll(i1, e2);
    SetAllEntry(i2, p.custoMedio, x => SetCustoMedio(x));
    var i3 := SetAll(i2, e3);
    SetAllEntry(i3, p.valorVenda, x => SetValorVenda(x));
    var i4 := SetAll(i3, e4);
    SetAllEntry(i4, p.estoque, x => SetEstoque(x));
  }

  /** Applying the same patch twice is applying it once. */
  lemma ApplyPatchIdempotent(it: Item, p: ItemPatch)
    ensures ApplyPatch(ApplyPatch(it, p), p) == ApplyPatch(it, p)
  {
  }

  /** A validated patch keeps a valid row valid and never blanks its name. */
  lemma ApplyPatchKeepsRowOk(it: Item, p: ItemPatch)
    requires ItemRowOk(it) && !AllWhitespace(it.produto)
    requires WellFormedPatch(p)
    ensures ItemRowOk(ApplyPatch(it, p)) && !AllWhitespace(ApplyPatch(it, p).produto)
  {
  }

  // ---------------------------------------------------------------------------
  // The ledger

  function Last(ms: seq<Movement>): Movement
    requires ms != []
  {
    ms[|ms| - 1]
  }

  function Init(ms: seq<Movement>): seq<Movement>
    requires ms != []
  {
    ms[..|ms| - 1]
  }

  function Contribution(m: Movement, p: int): real
  {
    if m.produtoId == p then Signed(m.movimentacao, m.quantidade) else 0.0
  }

  /** The signed sum of item `p`'s movements: entries count positive, exits negative. */
  function SignedSum(ms: seq<Movement>, p: int): real
    decreases |ms|
  {
    if ms == [] then 0.0 else SignedSum(Init(ms), p) + Contribution(Last(ms), p)
  }

  /** `select(StockMovementHistory).filter_by(produto_id=p)`, in table order. */
  function MovementsOf(ms: seq<Movement>, p: int): (r: seq<Movement>)
    ensures |r| <= |ms|
    ensures forall m :: m in r <==> m in ms && m.produtoId == p
    decreases |ms|
  {
    if ms == [] then []
    else MovementsOf(Init(ms), p) + (if Last(ms).produtoId == p then [Last(ms)] else [])
  }

  /** The table with every movement of item `p` removed. */
  function Without(ms: seq<Movement>, p: int): (r: seq<Movement>)
    ensures |r| <= |ms|
    ensures forall m :: m in r <==> m in ms && m.produtoId != p
    decreases |ms|
  {
    if ms == [] then []
    else Without(Init(ms), p) + (if Last(ms).produtoId != p then [Last(ms)] else [])
  }

  /** `db.delete(record)`: removes the row that is `d`. */
  function Remove(ms: seq<Movement>, d: Movement): (r: seq<Movement>)
    ensures forall m :: m in r <==> m in ms && m != d
    decreases |ms|
  {
    if ms == [] then []
    else Remove(Init(ms), d) + (if Last(ms) != d then [Last(ms)] else [])
  }

  /** The table with every row listed in `ds` removed. */
  function Drop(ms: seq<Movement>, ds: seq<Movement>): (r: seq<Movement>)
    ensures forall m :: m in r <==> m in ms && m !in ds
    decreases |ms|
  {
    if ms == [] then []
    else Drop(Init(ms), ds) + (if Last(ms) !in ds then [Last(ms)] else [])
  }

  lemma {:induction false} DropNothing(ms: seq<Movement>)
    ensures Drop(ms, []) == ms
    decreases |ms|
  {
    if ms != [] {
      DropNothing(Init(ms));
      assert ms == Init(ms) + [Last(ms)];
    }
  }

  lemma {:induction false} DropStep(ms: seq<Movement>, ds: seq<Movement>, d: Movement)
    ensures Remove(Drop(ms, ds), d) == Drop(ms, ds + [d])
    decreases |ms|
  {
    if ms != [] {
      DropStep(Init(ms), ds, d);
      var w := Drop(Init(ms), ds);
      var tail := if Last(ms) !in ds then [Last(ms)] else [];
      assert Drop(ms, ds) == w + tail;
      if tail == [] {
        assert w + tail == w;
      } else {
        assert Init(w + tail) == w;
      }
    }
  }

  /** Deleting the next listed row extends the removal by one. */
  lemma DropPrefixStep(ms: seq<Movement>, ds: seq<Movement>, i: nat)
    requires i < |ds|
    ensures Remove(Drop(ms, ds[..i]), ds[i]) == Drop(ms, ds[..i + 1])
  {
    assert ds[..i + 1] == ds[..i] + [ds[i]];
    DropStep(ms, ds[..i], ds[i]);
  }

  /** Deleting, one by one, exactly the records the selection returned leaves the
      table without item `p`'s movements. */
  lemma {:induction false} DropSelectionIsWithout(ms: seq<Movement>, p: int)
    ensures Drop(ms, MovementsOf(ms, p)) == Without(ms, p)
    decreases |ms|
  {
    if ms != [] {
      DropSelectionIsWithout(Init(ms), p);
      var sel := MovementsOf(ms, p);
      var sel' := MovementsOf(Init(ms), p);
      assert Drop(Init(ms), sel) == Drop(Init(ms), sel') by {
        DropSameOn(Init(ms), sel, sel');
      }
      assert Last(ms) in ms;
    }
  }

  /** `Drop` only looks at the rows of `ms`: two removal lists that agree on
      them give the same table. */
  lemma {:induction false} DropSameOn(ms: seq<Movement>, a: seq<Movement>, b: seq<Movement>)
    requires forall m :: m in ms ==> (m in a <==> m in b)
    ensures Drop(ms, a) == Drop(ms, b)
    decreases |ms|
  {
    if ms != [] {
      assert forall m :: m in Init(ms) ==> m in ms;
      DropSameOn(Init(ms), a, b);
      assert Last(ms) in ms;
    }
  }

  lemma {:induction false} SumWithout(ms: seq<Movement>, x: int, p: int)
    requires p != x
    ensures SignedSum(Without(ms, x), p) == SignedSum(ms, p)
    decreases |ms|
  {
    if ms != [] {
      SumWithout(Init(ms), x, p);
      var w := Without(Init(ms), x);
      var m := Last(ms);
      if m.produtoId != x {
        assert Without(ms, x) == w + [m];
        SumAppend(w, m, p);
      } else {
        assert Without(ms, x) == w + [];
        assert w + [] == w;
      }
    }
  }

  lemma SumAppend(ms: seq<Movement>, m: Movement, p: int)
    ensures SignedSum(ms + [m], p) == SignedSum(ms, p) + Contribution(m, p)
  {
    assert Init(ms + [m]) == ms;
  }

  lemma {:induction false} SumUnreferenced(ms: seq<Movement>, p: int)
    requires forall i :: 0 <= i < |ms| ==> ms[i].produtoId != p
    ensures SignedSum(ms, p) == 0.0
    decreases |ms|
  {
    if ms != [] {
      SumUnreferenced(Init(ms), p);
    }
  }

  /** Every record's final stock equals the signed sum of its item's movements up
      to and including it. */
  ghost predicate Coherent(ms: seq<Movement>)
    decreases |ms|
  {
    ms == [] || (Coherent(Init(ms)) && Last(ms).estoqueFinal == SignedSum(ms, Last(ms).produtoId))
  }

  /** The index form of `Coherent`: record `i` carries the stock its item had
      right after that record's operation. */
  lemma {:induction false} CoherentAt(ms: seq<Movement>, i: nat)
    requires Coherent(ms)
    requires i < |ms|
    ensures ms[i].estoqueFinal == SignedSum(ms[..i + 1], ms[i].produtoId)
    decreases |ms|
  {
    if i == |ms| - 1 {
      assert ms[..i + 1] == ms;
    } else {
      CoherentAt(Init(ms), i);
      assert Init(ms)[..i + 1] == ms[..i + 1];
    }
  }

  lemma {:induction false} WithoutCoherent(ms: seq<Movement>, x: int)
    requires Coherent(ms)
    ensures Coherent(Without(ms, x))
    decreases |ms|
  {
    if ms != [] {
      WithoutCoherent(Init(ms), x);
      var w := Without(Init(ms), x);
      var m := Last(ms);
      if m.produtoId != x {
        assert Without(ms, x) == w + [m];
        SumWithout(Init(ms), x, m.produtoId);
        AppendCoherent(w, m);
      } else {
        assert Without(ms, x) == w + [];
        assert w + [] == w;
      }
    }
  }

  /** A record appended to a coherent table keeps it coherent when it carries
      the stock its item had before, moved by the record's own contribution. */
  lemma AppendCoherent(w: seq<Movement>, m: Movement)
    requires Coherent(w)
    requires m.estoqueFinal == SignedSum(w, m.produtoId) + Contribution(m, m.produtoId)
    ensures Coherent(w + [m])
  {
    assert Init(w + [m]) == w && Last(w + [m]) == m;
    SumAppend(w, m, m.produtoId);
  }

  ghost predicate IdsIncreasing(ms: seq<Movement>)
  {
    forall i, j :: 0 <= i < j < |ms| ==> ms[i].id < ms[j].id
  }

  lemma {:induction false} WithoutIncreasing(ms: seq<Movement>, x: int)
    requires IdsIncreasing(ms)
    ensures IdsIncreasing(Without(ms, x))
    decreases |ms|
  {
    if ms != [] {
      WithoutIncreasing(Init(ms), x);
      var w := Without(Init(ms), x);
      var m := Last(ms);
      if m.produtoId != x {
        forall i | 0 <= i < |w| ensures w[i].id < m.id {
          assert w[i] in Init(ms);
        }
      }
    }
  }

  /** No movement of item `p` survives its removal. */
  lemma {:induction false} NothingOfRemoved(ms: seq<Movement>, p: int)
    ensures MovementsOf(Without(ms, p), p) == []
    decreases |ms|
  {
    if ms != [] {
      NothingOfRemoved(Init(ms), p);
      var w := Without(Init(ms), p);
      var m := Last(ms);
      if m.produtoId != p {
        assert Without(ms, p) == w + [m];
        assert Init(w + [m]) == w && Last(w + [m]) == m;
      } else {
        assert Without(ms, p) == w + [];
        assert w + [] == w;
      }
    }
  }

  // ---------------------------------------------------------------------------
  // The store invariant

  /** What holds of the two tables and the id counters after every operation:
      rows meet their constraints and have distinct ids below the counters, every
      movement refers to a stored item (the foreign key), records are in id
      order, every final stock is the running stock of its item, and every item's
      stock is the signed sum of its movements. */
  ghost predicate Consistent(items: map<nat, Item>, ms: seq<Movement>, nextItemId: nat, nextMovementId: nat)
  {
    && ItemsOk(items, nextItemId)
    && MovementsOk(ms, items.Keys, nextMovementId)
    && IdsIncreasing(ms)
    && Coherent(ms)
    && StocksMatch(items, ms)
  }

  /** Item rows: keyed by their id, below the counter, within their constraints
      and with a non-blank name. */
  ghost predicate ItemsOk(items: map<nat, Item>, nextItemId: nat)
  {
    forall id :: id in items ==>
      items[id].id == id && id < nextItemId && ItemRowOk(items[id]) && !AllWhitespace(items[id].produto)
  }

  /** Movement rows: within their constraints, naming one of `itemIds`, with ids
      below the counter. */
  ghost predicate MovementsOk(ms: seq<Movement>, itemIds: set<nat>, nextMovementId: nat)
  {
    forall i :: 0 <= i < |ms| ==>
      MovementRowOk(ms[i]) && MovementRefersTo(ms[i], itemIds) && ms[i].id < nextMovementId
  }

  /** Every stored item's stock is the signed sum of its movements. */
  ghost predicate StocksMatch(items: map<nat, Item>, ms: seq<Movement>)
  {
    forall id :: id in items ==> SignedSum(ms, id) == items[id].estoque
  }

  /** Appending a record that meets its constraints, names a known item, takes
      the next id and carries its item's new running stock keeps the movement
      part of the invariant. */
  lemma AppendKeepsMovements(ms: seq<Movement>, itemIds: set<nat>, nextMovementId: nat, m: Movement)
    requires MovementsOk(ms, itemIds, nextMovementId) && IdsIncreasing(ms) && Coherent(ms)
    requires MovementRowOk(m) && m.produtoId in itemIds && m.id == nextMovementId
    requires m.estoqueFinal == SignedSum(ms, m.produtoId) + Contribution(m, m.produtoId)
    ensures MovementsOk(ms + [m], itemIds, nextMovementId + 1)
    ensures IdsIncreasing(ms + [m])
    ensures Coherent(ms + [m])
  {
    var ms' := ms + [m];
    AppendCoherent(ms, m);
    forall i | 0 <= i < |ms'|
      ensures MovementRowOk(ms'[i]) && MovementRefersTo(ms'[i], itemIds) && ms'[i].id < nextMovementId + 1
    {
      if i < |ms| {
        assert ms'[i] == ms[i];
      }
    }
  }

  /** Storing `it` and appending its record keeps every stock equal to its sum,
      when the record moves `it`'s sum to its new stock. */
  lemma AppendKeepsStocks(items: map<nat, Item>, ms: seq<Movement>, it: Item, m: Movement)
    requires forall k :: k in items && k != it.id ==> SignedSum(ms, k) == items[k].estoque
    requires m.produtoId == it.id && SignedSum(ms, it.id) + Contribution(m, it.id) == it.estoque
    ensures StocksMatch(items[it.id := it], ms + [m])
  {
    forall k | k in items[it.id := it] ensures SignedSum(ms + [m], k) == items[it.id := it][k].estoque {
      SumAppend(ms, m, k);
    }
  }

  /** The tables and counters after `create_item`. */
  function AfterCreate(items: map<nat, Item>, ms: seq<Movement>, nextItemId: nat, nextMovementId: nat,
                       c: ItemCreate, date: Date): (map<nat, Item>, seq<Movement>, nat, nat)
  {
    var it := Item(nextItemId, c.produto, c.unidadeMedida, c.custoMedio, c.valorVenda, c.estoque);
    if c.estoque > 0.0 then
      (items[nextItemId := it], ms + [MovementRecord(nextMovementId, date, it, Entrada, it.estoque)],
       nextItemId + 1, nextMovementId + 1)
    else
      (items[nextItemId := it], ms, nextItemId + 1, nextMovementId)
  }

  lemma CreatePreserves(items: map<nat, Item>, ms: seq<Movement>, nextItemId: nat, nextMovementId: nat,
                        c: ItemCreate, date: Date)
    requires Consistent(items, ms, nextItemId, nextMovementId)
    requires WellFormedCreate(c)
    ensures var (items', ms', ni, nm) := AfterCreate(items, ms, nextItemId, nextMovementId, c, date);
      Consistent(items', ms', ni, nm)
  {
    var it := Item(nextItemId, c.produto, c.unidadeMedida, c.custoMedio, c.valorVenda, c.estoque);
    var items' := items[nextItemId := it];
    InsertKeepsItems(items, nextItemId, it);
    MovementsWiden(ms, items.Keys, items'.Keys, nextMovementId);
    forall i | 0 <= i < |ms| ensures ms[i].produtoId != nextItemId {
      assert MovementRefersTo(ms[i], items.Keys);
    }
    SumUnreferenced(ms, nextItemId);
    if c.estoque > 0.0 {
      var m := MovementRecord(nextMovementId, date, it, Entrada, it.estoque);
      AppendKeepsMovements(ms, items'.Keys, nextMovementId, m);
      AppendKeepsStocks(items, ms, it, m);
    } else {
      assert StocksMatch(items', ms);
    }
  }

  /** Storing a valid row under the next item id keeps the item part of the
      invariant with the counter one step further. */
  lemma InsertKeepsItems(items: map<nat, Item>, nextItemId: nat, it: Item)
    requires ItemsOk(items, nextItemId)
    requires it.id == nextItemId && ItemRowOk(it) && !AllWhitespace(it.produto)
    ensures nextItemId !in items
    ensures ItemsOk(items[nextItemId := it], nextItemId + 1)
  {
  }

  /** Movement rows that name one of a set of items still do once the set grows. */
  lemma MovementsWiden(ms: seq<Movement>, itemIds: set<nat>, itemIds': set<nat>, nextMovementId: nat)
    requires MovementsOk(ms, itemIds, nextMovementId) && itemIds <= itemIds'
    ensures MovementsOk(ms, itemIds', nextMovementId)
  {
  }

  /** The tables and counters after `update_item` on a stored id. */
  function AfterUpdate(items: map<nat, Item>, ms: seq<Movement>, nextMovementId: nat,
                       id: int, p: ItemPatch, date: Date): (map<nat, Item>, seq<Movement>, nat)
    requires id in items
  {
    var it := ApplyPatch(items[id], p);
    match DeriveMovement(items[id].estoque, it.estoque)
    case None => (items[id := it], ms, nextMovementId)
    case Some((t, q)) =>
      (items[id := it], ms + [MovementRecord(nextMovementId, date, it, t, q)], nextMovementId + 1)
  }

  /** What `AfterUpdate` does, spelled out: the row becomes the partial update,
      and a rise or fall in stock appends an `entrada` or `saida` of the
      difference under the next id, carrying the new stock. */
  lemma UpdateOutcome(items: map<nat, Item>, ms: seq<Movement>, nextMovementId: nat,
                      id: int, p: ItemPatch, date: Date)
    requires id in items && items[id].id == id
    ensures var (items', ms', nm) := AfterUpdate(items, ms, nextMovementId, id, p, date);
      var before, it := items[id].estoque, ApplyPatch(items[id], p);
      && items' == items[id := it]
      && (it.estoque > before ==>
            ms' == ms + [Movement(nextMovementId, date, Entrada, id, it.estoque - before, it.estoque)]
            && nm == nextMovementId + 1)
      && (it.estoque < before ==>
            ms' == ms + [Movement(nextMovementId, date, Saida, id, before - it.estoque, it.estoque)]
            && nm == nextMovementId + 1)
      && (it.estoque == before ==> ms' == ms && nm == nextMovementId)
  {
  }

  lemma UpdatePreserves(items: map<nat, Item>, ms: seq<Movement>, nextItemId: nat, nextMovementId: nat,
                        id: int, p: ItemPatch, date: Date)
    requires Consistent(items, ms, nextItemId, nextMovementId)
    requires id in items
    requires WellFormedPatch(p)
    ensures var (items', ms', nm) := AfterUpdate(items, ms, nextMovementId, id, p, date);
      Consistent(items', ms', nextItemId, nm)
  {
    var it := ApplyPatch(items[id], p);
    ApplyPatchKeepsRowOk(items[id], p);
    var d := DeriveMovement(items[id].estoque, it.estoque);
    if d.Some? {
      var (t, q) := d.value;
      var m := MovementRecord(nextMovementId, date, it, t, q);
      DerivedRecordFits(nextMovementId, date, items[id].estoque, it);
      AppendKeepsMovements(ms, items.Keys, nextMovementId, m);
      AppendKeepsStocks(items, ms, it, m);
    }
  }

  lemma DeletePreserves(items: map<nat, Item>, ms: seq<Movement>, nextItemId: nat, nextMovementId: nat, id: int)
    requires Consistent(items, ms, nextItemId, nextMovementId)
    ensures Consistent(items - {id}, Without(ms, id), nextItemId, nextMovementId)
  {
    var w := Without(ms, id);
    forall i | 0 <= i < |w|
      ensures MovementRowOk(w[i]) && MovementRefersTo(w[i], (items - {id}).Keys) && w[i].id < nextMovementId
    {
      assert w[i] in ms;
    }
    WithoutIncreasing(ms, id);
    WithoutCoherent(ms, id);
    forall k | k in items - {id} ensures SignedSum(w, k) == items[k].estoque {
      SumWithout(ms, id, k);
    }
  }

  /** An id that names no item has no movements, so its cascade removes nothing. */
  lemma AbsentHasNoMovements(items: map<nat, Item>, ms: seq<Movement>, nextItemId: nat, nextMovementId: nat, id: int)
    requires Consistent(items, ms, nextItemId, nextMovementId)
    requires id !in items
    ensures MovementsOf(ms, id) == []
    ensures Without(ms, id) == ms
  {
    Unreferenced(ms, id);
  }

  /** A product no record names has an empty selection. */
  lemma {:induction false} Unreferenced(ms: seq<Movement>, id: int)
    requires forall i :: 0 <= i < |ms| ==> ms[i].produtoId != id
    ensures MovementsOf(ms, id) == []
    ensures Without(ms, id) == ms
    decreases |ms|
  {
    if ms != [] {
      var init, last := Init(ms), Last(ms);
      forall i | 0 <= i < |init| ensures init[i].produtoId != id {
        assert init[i] == ms[i];
      }
      assert last.produtoId != id by { assert last == ms[|ms| - 1]; }
      Unreferenced(init, id);
      UnreferencedStep(ms, id);
    }
  }

  /** One step of `Unreferenced`: a last record of another product adds nothing
      to the selection and is kept by the removal. */
  lemma UnreferencedStep(ms: seq<Movement>, id: int)
    requires ms != [] && Last(ms).produtoId != id
    requires MovementsOf(Init(ms), id) == [] && Without(Init(ms), id) == Init(ms)
    ensures MovementsOf(ms, id) == []
    ensures Without(ms, id) == ms
  {
    assert Init(ms) + [Last(ms)] == ms;
  }
}
