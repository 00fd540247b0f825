# inventory_crud — a Dafny model of the stock ledger

inventory_crud is a small inventory service. A FastAPI backend keeps an `items`
table (product name, unit of measure, average cost, sale value, stock) and a
stock-movement history. Every change to an item's stock writes a movement
record: `entrada` for an increase and `saida` for a decrease, with the quantity
moved and the stock after the move. Creating an item with positive stock records
its initial entry. Deleting an item first deletes its history. An earlier
iteration of the same code, under `src/controller`, `src/models` and
`src/schemas`, has integer columns and a weaker constraint. It always records an
entry on creation and does not delete movements with their item.

The model has these modules:

- `Text`: Python's `str.strip` and the non-blank validator on `produto`.
- `BackendModels`, `VariantModels`: the enums, the rows, the check constraints
  and `to_dict` of both iterations.
- `BackendSchema`, `VariantSchema`: request validation, as pydantic v2 applies
  it to `ItemCreate`, `ItemUpdate` and the movement schema.
- `BackendLedger`, `VariantLedger`: the pure rules.
  - The derivation of a movement from a stock change.
  - The partial update.
  - The movement selections.
  - The invariant `Consistent` / `VConsistent`, and one preservation lemma per
    operation.
- `BackendCrud.Store`, `VariantCrud.VariantStore`: the crud operations as
  methods of a class. Its fields are the two tables and the database's key
  counters. Each method's `ensures` states the new tables, and the store's
  `Valid()` invariant (`Consistent` for the backend, `VConsistent` for the
  variant) is preserved.
- `BackendRoutes`: the HTTP routes and their mapping of a missing result to 404.

The backend store's invariant, `BackendLedger.Consistent`, says that:

- every row meets its check constraints;
- ids are unique and below the counters;
- every movement refers to a stored item (the foreign key);
- records are in id order;
- each record's `estoque_final` is the running signed sum of its item's records;
- each stored item's `estoque` is the signed sum of its movements.

The variant store's invariant, `VariantLedger.VConsistent`, keeps the rows'
check constraints, the id bounds, the id order, the running sums and the
stock sums. It differs in two places, because the variant's `delete_item`
leaves an item's records behind:

- a record's `id_produto` is only below the item counter, not necessarily a
  stored item (`VariantLedger.VDeleteLeavesDangling` shows the foreign key
  failing after a delete);
- every stored item is named by at least one record, since `create_item`
  always writes its `entrada`.

## Model

| member | source | states |
|---|---|---|
| Text.TrimStart | src/backend/schemas/schema.py:38 | the result is a suffix of the input, it does not start with whitespace, and everything it drops is whitespace |
| Text.TrimEnd | src/backend/schemas/schema.py:38 | the result is a prefix of the input, it does not end with whitespace, and everything it drops is whitespace |
| Text.Strip | src/backend/schemas/schema.py:38 | `v.strip()` is the slice of `v` left after removing a whitespace-only prefix and a whitespace-only suffix, and neither starts nor ends with whitespace |
| Text.StripEmptyIff | src/backend/schemas/schema.py:38-39 | `v.strip()` is empty exactly when every character of `v` is whitespace |
| Text.NonBlank | src/backend/schemas/schema.py:25-40 | the validator fails exactly on all-whitespace names, with the given message, and otherwise returns the name unchanged |
| BackendModels.ParseUoM | src/backend/models/models.py:8-15 | a unit string is accepted exactly when it is one of the five enum values, and it parses to the member carrying that value |
| BackendModels.ParseUoMValue | src/backend/models/models.py:8-15 | parsing a member's value gives back the member |
| BackendModels.ParseMovementType | src/backend/models/models.py:18-22 | only `entrada` and `saida` are accepted, each parsing to the member carrying it |
| BackendModels.ParseMovementTypeValue | src/backend/models/models.py:18-22 | parsing a movement type's value gives back the type |
| BackendModels.ItemToDict | src/backend/models/models.py:52-65 | the dict has exactly the six column keys |
| BackendModels.ItemDictRoundTrip | src/backend/models/models.py:52-65 | reading an item back from its dict gives the same item, unit included |
| BackendModels.MovementToDict | src/backend/models/models.py:96-109 | the dict has exactly the six keys, with `produto_id` as the foreign key |
| BackendModels.MovementDictRoundTrip | src/backend/models/models.py:96-109 | reading a movement back from its dict gives the same record |
| VariantModels.ZeroQuantityOnlyInVariant | src/models/models.py:56 | every movement row the backend's constraint accepts is accepted here, and a zero-quantity row is accepted here but refused by the backend |
| VariantModels.VItemToDict | src/models/models.py:38-46 | the variant item dict has the same six keys |
| VariantModels.VItemDictRoundTrip | src/models/models.py:38-46 | the variant item survives its dict |
| VariantModels.StockMovementToDict | src/models/models.py:64-72 | the dict has the six keys, with `id_produto` and the date as ISO text |
| VariantModels.StockMovementDictRoundTrip | src/models/models.py:64-72 | the variant movement survives its dict |
| VariantModels.VariantMovementDictNotBackend | src/models/models.py:69 | the variant's dict has no `produto_id` key, so the backend's reader refuses it |
| BackendSchema.ValidateAmount | src/backend/schemas/schema.py:21-23 | negatives fail with the field and value, positives pass unchanged, and zero passes exactly when the `ge=0`/`PositiveFloat` combination admits it |
| BackendSchema.ValidateUnit | src/backend/schemas/schema.py:20 | a unit passes exactly when it is an enum value, and fails with `NotAMember` naming the string otherwise |
| BackendSchema.ValidateProduto | src/backend/schemas/schema.py:25-40 | the inherited validator fails exactly on blank names, with the message `Produto não pode ser vazio` |
| BackendSchema.ValidateItemCreate | src/backend/schemas/schema.py:43-46 | a create body is accepted exactly when the name is non-blank, the unit is a member and the three amounts are admissible; the accepted value copies every field, and the unit's value is the string given |
| BackendSchema.ValidateOptionalAmount | src/backend/schemas/schema.py:62-64 | an absent amount stays unset; a present one passes exactly when admissible, unchanged |
| BackendSchema.ValidateItemUpdate | src/backend/schemas/schema.py:49-64 | a missing `produto` or `unidade_medida` key is an error; a body is accepted exactly when the name is non-blank, the unit is a member and every present amount is admissible; the patch sets exactly the keys given |
| BackendSchema.ValidateMovementRecord | src/backend/schemas/schema.py:89-93 | a record passes exactly when quantity and final stock are admissible, unchanged; a negative either fails |
| BackendSchema.StoredMovementPassesSchema | src/backend/models/models.py:87-92 | a row that meets the table constraints passes the schema under `ge=0`, and under strict positivity exactly when its final stock is positive |
| VariantSchema.ValidateNumber | src/schemas/schema.py:23 | an int-or-float amount fails when negative, passes unchanged when positive, and passes at zero exactly when zero is admitted |
| VariantSchema.ValidateUnitLiteral | src/schemas/schema.py:20 | the `Literal` unit passes exactly when it is one of the five strings, and stays a string |
| VariantSchema.ValidateMovementLiteral | src/schemas/schema.py:86 | the `Literal` movement type passes exactly for `entrada` and `saida` |
| VariantSchema.ValidateVariantProduto | src/schemas/schema.py:25-40 | the variant validator fails exactly on blank names, with its own (mis-encoded) message |
| VariantSchema.ValidateVItemCreate | src/schemas/schema.py:19-45 | a variant create body is accepted exactly when every field is admissible, and the result copies the body |
| VariantSchema.CreateAcceptanceAgrees | src/schemas/schema.py:19-23 | the two iterations accept the same create bodies, and the variant's unit string names the backend's enum member |
| VariantSchema.ValidateVItemUpdate | src/schemas/schema.py:48-62 | missing `produto` is an error; a body is accepted exactly when name, unit and present amounts are admissible, and the patch is the body |
| VariantSchema.ValidateVMovementRecord | src/schemas/schema.py:85-89 | a record passes exactly when its type is a literal and both amounts are admissible |
| BackendLedger.DeriveMovement | src/backend/controller/crud.py:102-111 | no movement exactly when the stock is unchanged; otherwise a positive quantity whose signed value takes the old stock to the new, `entrada` exactly when the stock rose |
| BackendLedger.CreationIsDerivationFromZero | src/backend/controller/crud.py:69-71 | the initial entry of `create_item` is the derivation from stock 0: an `entrada` of the whole stock, or nothing when the stock is 0 |
| BackendLedger.MovementRecord | src/backend/controller/crud.py:163-182 | the record has the given id, date, type and quantity, names the item and carries its current stock as the final stock; for a valid row it meets the table's constraints exactly when the quantity is positive |
| BackendLedger.DerivedRecordFits | src/backend/controller/crud.py:175-181 | a record derived from a valid row meets the table constraints, names the item and records the new stock |
| BackendLedger.ApplyPatch | src/backend/controller/crud.py:96-97 | every set field takes the patch's value, every unset field and the id keep the row's |
| BackendLedger.SetAllAppend | src/backend/controller/crud.py:96-97 | applying two runs of `setattr` calls in turn is applying their concatenation |
| BackendLedger.SetAllEntry | src/backend/controller/crud.py:96-97 | one dump entry sets its field when the field is set and nothing otherwise |
| BackendLedger.SetAllDumpIsApplyPatch | src/backend/controller/crud.py:96-97 | the `setattr` loop over `model_dump(exclude_unset=True)` is the partial update |
| BackendLedger.ApplyPatchIdempotent | src/backend/controller/crud.py:96-97 | applying the same patch twice is applying it once |
| BackendLedger.ApplyPatchKeepsRowOk | src/backend/models/models.py:42-50 | a validated patch keeps a row within its check constraints and its name non-blank |
| BackendLedger.MovementsOf | src/backend/controller/crud.py:157 | the selection holds exactly the records of the product |
| BackendLedger.Without | src/backend/controller/crud.py:132-136 | what remains holds exactly the records of other products |
| BackendLedger.Remove | src/backend/controller/crud.py:135 | deleting one record keeps exactly the other records |
| BackendLedger.Drop | src/backend/controller/crud.py:134-136 | deleting a list of records keeps exactly the records not in it |
| BackendLedger.DropNothing | src/backend/controller/crud.py:133-134 | deleting no record changes nothing |
| BackendLedger.DropStep | src/backend/controller/crud.py:134-136 | one more pass of the delete loop deletes one more record |
| BackendLedger.DropPrefixStep | src/backend/controller/crud.py:134-136 | the loop's `i`-th pass extends the deleted prefix by one |
| BackendLedger.DropSelectionIsWithout | src/backend/controller/crud.py:132-136 | deleting every selected record of a product removes exactly that product's records, keeping order |
| BackendLedger.DropSameOn | src/backend/controller/crud.py:134-136 | deleting two lists that agree on the table gives the same table |
| BackendLedger.SumWithout | src/backend/controller/crud.py:132-136 | removing one product's records leaves every other product's signed sum unchanged |
| BackendLedger.SumAppend | src/backend/controller/crud.py:114-117 | appending a record adds its signed quantity to its own product's sum only |
| BackendLedger.SumUnreferenced | src/backend/controller/crud.py:69-74 | a product with no records has signed sum 0 |
| BackendLedger.CoherentAt | src/backend/controller/crud.py:175-181 | in a coherent history each record's final stock is the signed sum of the records up to it |
| BackendLedger.WithoutCoherent | src/backend/controller/crud.py:132-136 | removing one product's records keeps every final stock a running sum |
| BackendLedger.AppendCoherent | src/backend/controller/crud.py:175-181 | a coherent history stays coherent when the appended record carries its item's previous running stock moved by its own quantity |
| BackendLedger.WithoutIncreasing | src/backend/controller/crud.py:132-136 | removing one product's records keeps the remaining ids in order |
| BackendLedger.NothingOfRemoved | src/backend/controller/crud.py:132-136 | after the cascade the product has no records |
| BackendLedger.AppendKeepsMovements | src/backend/controller/crud.py:175-181 | appending a valid record that names a known item, takes the next id and carries the new running stock keeps the rows valid, the ids in order and the history coherent |
| BackendLedger.AppendKeepsStocks | src/backend/controller/crud.py:114-117 | storing the changed row and appending its record keeps every stock equal to the signed sum of its movements |
| BackendLedger.UpdateOutcome | src/backend/controller/crud.py:94-117 | the update replaces the row by the partial update; a rise appends an `entrada` and a fall a `saida` of the difference, carrying the new stock under the next id; no change appends nothing |
| BackendLedger.InsertKeepsItems | src/backend/controller/crud.py:57-67 | a valid row stored under the next item id is fresh and keeps every row valid, keyed by its own id and below the advanced counter |
| BackendLedger.MovementsWiden | src/backend/models/models.py:86 | adding an item keeps every existing record's foreign key satisfied |
| BackendLedger.CreatePreserves | src/backend/controller/crud.py:58-75 | `create_item` keeps the invariant |
| BackendLedger.UpdatePreserves | src/backend/controller/crud.py:89-119 | `update_item` keeps the invariant, including stock equal to the signed sum of movements |
| BackendLedger.DeletePreserves | src/backend/controller/crud.py:132-144 | deleting the item together with all its records keeps the invariant, foreign key included |
| BackendLedger.AbsentHasNoMovements | src/backend/controller/crud.py:132-140 | for an unknown id the cascade deletes nothing before the `None` is returned |
| BackendLedger.UnreferencedStep | src/backend/controller/crud.py:132-136 | a last record of another product adds nothing to the selection and is kept by the removal |
| BackendLedger.Unreferenced | src/backend/controller/crud.py:132-136 | a product no record names has an empty selection and leaves the table unchanged |
| BackendCrud.CopySetFields | src/backend/controller/crud.py:96-97 | the `setattr` loop computes the partial update |
| BackendCrud.Store.constructor | src/backend/models/models.py:37-39 | the database starts empty, with keys from 1 |
| BackendCrud.Store.GetItems | src/backend/controller/crud.py:20-29 | the list has every stored item exactly once and nothing else |
| BackendCrud.Store.GetItem | src/backend/controller/crud.py:32-45 | `None` exactly when the id is absent, else the stored row |
| BackendCrud.Store.CreateItem | src/backend/controller/crud.py:48-75 | inserts the validated fields under a fresh id; appends an `entrada` of the whole stock exactly when it is positive, and the movement counter advances exactly then; the item counter advances by one; keeps the invariant |
| BackendCrud.Store.UpdateItem | src/backend/controller/crud.py:78-119 | `None` and no change for an unknown id; otherwise the row becomes the partial update, an `entrada` or `saida` of the difference is appended and the movement counter advances by one exactly when the stock changed, otherwise the history and the counter stay; keeps the invariant |
| BackendCrud.Store.DeleteMovementsOf | src/backend/controller/crud.py:132-136 | the loop deleting the selected records one by one leaves exactly the other products' records, in order |
| BackendCrud.Store.DeleteItem | src/backend/controller/crud.py:122-144 | removes the product's records, then returns `None` for an unknown id or removes and returns the row; keeps the invariant |
| BackendCrud.Store.GetProductMovementHistory | src/backend/controller/crud.py:147-160 | always a list, never `None`: exactly the product's records, in table order |
| VariantLedger.VDeriveMovement | src/controller/crud.py:102-111 | the same derivation rule over integers |
| VariantLedger.VMovementRecord | src/controller/crud.py:157-176 | the record has the given id, date, type and quantity, names the item and carries its current stock as the final stock; for a valid row it meets the variant's constraints exactly when the quantity is not negative |
| VariantLedger.CreationEntryFits | src/controller/crud.py:70-74 | the entry always written on creation carries the whole stock and meets the variant's constraint even at stock 0, which the backend's would refuse |
| VariantLedger.VApplyPatch | src/controller/crud.py:96-97 | set fields take the patch's values, the rest keep the row's |
| VariantLedger.VSetAllAppend | src/controller/crud.py:96-97 | two runs of `setattr` calls compose |
| VariantLedger.VSetAllEntry | src/controller/crud.py:96-97 | one dump entry sets its field exactly when the field is set |
| VariantLedger.VSetAllDumpIsApplyPatch | src/controller/crud.py:96-97 | the `setattr` loop is the partial update |
| VariantLedger.VMovementsOf | src/controller/crud.py:151 | the selection holds exactly the product's records |
| VariantLedger.VSumAppend | src/controller/crud.py:114-117 | appending a record changes only its own product's sum |
| VariantLedger.VOwnersAppend | src/controller/crud.py:71-73 | appending a record adds its product to the products named |
| VariantLedger.VSumUnreferenced | src/controller/crud.py:70-74 | a product with no records has sum 0 |
| VariantLedger.VOwnerAt | src/controller/crud.py:71-73 | a product named by the history has a record at some index |
| VariantLedger.VCreatePreserves | src/controller/crud.py:59-75 | creation keeps the variant's invariant, including "every stored item has a record" |
| VariantLedger.VApplyPatchKeepsRowOk | src/models/models.py:28-36 | a validated patch keeps the integer row within its constraints |
| VariantLedger.VUpdateOutcome | src/controller/crud.py:94-117 | the variant's update replaces the row by the partial update; a rise appends an `entrada` and a fall a `saida` of the difference, carrying the new stock under the next id; no change appends nothing and keeps the counter |
| VariantLedger.VUpdatePreserves | src/controller/crud.py:89-119 | update keeps the variant's invariant |
| VariantLedger.VDeletePreserves | src/controller/crud.py:132-138 | deleting only the item keeps the variant's invariant |
| VariantLedger.VDeleteLeavesDangling | src/controller/crud.py:132-138 | after deleting a stored item some record still names it, a row the foreign key forbids |
| VariantCrud.CopySetFields | src/controller/crud.py:96-97 | the variant's `setattr` loop computes its partial update |
| VariantCrud.VariantStore.constructor | src/models/models.py:22-25 | the variant database starts empty, with keys from 1 |
| VariantCrud.VariantStore.GetItems | src/controller/crud.py:21-30 | every stored item exactly once |
| VariantCrud.VariantStore.GetItem | src/controller/crud.py:33-46 | `None` exactly when the id is absent |
| VariantCrud.VariantStore.CreateItem | src/controller/crud.py:49-75 | inserts under a fresh id and always appends an `entrada` of the whole stock, zero included |
| VariantCrud.VariantStore.UpdateItem | src/controller/crud.py:78-119 | as in the backend, over integer columns: `None` and no change for an unknown id, else the patched row, with one `entrada`/`saida` record and one counter step exactly when the stock changed |
| VariantCrud.VariantStore.DeleteItem | src/controller/crud.py:122-138 | removes only the row; the movements are unchanged and, for a stored item, one of them now dangles |
| VariantCrud.VariantStore.GetProductMovementHistory | src/controller/crud.py:141-154 | always a list: exactly the product's records |
| BackendRoutes.ItemsResponse | src/backend/controller/routes.py:22-25 | 404 `Nenhum item encontrado` exactly when the list is empty, else the list |
| BackendRoutes.ItemResponse | src/backend/controller/routes.py:42-45 | 404 `Item não encontrado` exactly when the crud result is `None`, else the item |
| BackendRoutes.MovementsResponse | src/backend/controller/routes.py:117-120 | 404 exactly when the crud result is `None`, else the list |
| BackendRoutes.ReadItems | src/backend/controller/routes.py:12-25 | a 404 with `Nenhum item encontrado` exactly when the table is empty, else as many rows as stored items, each stored row and only stored rows |
| BackendRoutes.ReadItem | src/backend/controller/routes.py:28-45 | 404 exactly when the id is absent, else the stored row |
| BackendRoutes.CreateItem | src/backend/controller/routes.py:48-59 | never an error: the row built from the request under the next, previously unused id, added to the table and nothing else changed in it; an `entrada` of the whole stock under the next movement id exactly when the stock is positive; both counters stated |
| BackendRoutes.UpdateItem | src/backend/controller/routes.py:62-80 | a 404 with `Item não encontrado` and no change exactly when the id was absent, else the patched row, now stored, with an `entrada` or `saida` of the difference and one counter step exactly when the stock changed |
| BackendRoutes.DeleteItem | src/backend/controller/routes.py:83-100 | a 404 with `Item não encontrado` and no change exactly when the id was absent, else the removed row; in both cases the history becomes `Without(old, id)`, the records of every other product kept in order, the id is absent and its history empty; counters unchanged |
| BackendRoutes.GetProductMovementHistory | src/backend/controller/routes.py:103-120 | never a 404: exactly the product's records, in table order |

## Left out

- Database sessions, commits, refreshes and SQL are not modelled. Tables are fields, and each commit is an assignment. Autoincrement keys come from two counters that start at 1.
- BackendCrud.Store.DeleteMovementsOf: the per-record commits are not observable. The loop deletes from a local copy of the table, and the result is stored once.
- Atomicity is not claimed. The source commits the item and its movement separately, and a failure between the two commits is not modelled.
- `get_current_date_formatted` reads the database clock. Its result is an opaque `Date` parameter. The variant's `DD/MM/YYYY` string formatting is not modelled.
- Floating point is modelled as exact reals. The variant's columns are `Integer` while its schema admits float amounts. The source converts nothing, and SQLAlchemy's `Integer` hands the value to the driver as it is. What happens to a float amount stored in an `Integer` column is therefore up to the database engine: it may round it, keep it as a REAL, or reject it. That conversion is not modelled, neither on the insert of `create_item` nor on the `setattr` of `update_item`. VariantCrud.VariantStore.CreateItem and VariantCrud.VariantStore.UpdateItem take integer amounts.
- Ids are `int`, as the routes declare them (`item_id: int`, `product_id: int`): a negative or unused id is answered as absent, and the store's keys and counters are `nat`, as autoincrement keys are.
- BackendModels.Item: `custo_medio` and `valor_venda` are nullable columns, but the model keeps them non-null, since explicit nulls are not modelled.
- VariantModels.VItem and VariantModels.StockMovement: the variant's `produto`, `custo_medio`, `valor_venda`, `estoque`, `quantidade` and `estoque_final` columns are nullable, but the model keeps them non-null, for the same reason.
- BackendSchema.ValidateItemUpdate: explicit JSON `null` values are not modelled. An absent key is the only "missing" form, so the validator's crash on a `null` `produto` is outside the model.
- BackendSchema.ValidateItemCreate: pydantic reports every failing field. The model reports the first one, in declaration order.
- BackendSchema.ValidateAmount: pydantic's lax coercion of strings and booleans to floats is not modelled. Pydantic's error texts are not modelled either, only the failing field.
- The `ItemResponse` and `MovementHistoryResponse` serialisation of route results is not modelled.
- In the variant's crud code, the names that do not resolve are modelled by their intended meaning. That code imports `StockMovementHistory` where the model class is `StockMovement`. It passes `data_movimentacao`/`tipo_movimentacao`. It filters by `id_product`. Its `create_movement_history` passes `produto_id=item.id`, while the column is `id_produto`. Only the logic is modelled.
- VariantCrud.VariantStore.CreateItem: takes the unit as the `UoM` enum and the amounts as integers. The variant schema's `Literal` string and its `Number` are not converted into them. Turning the string into the enum is the work of SQLAlchemy's `Enum` column, and what a float becomes in an `Integer` column is up to the database engine; neither is modelled.
- The variant's `UoMType` subclasses SQLAlchemy's `Enum` rather than Python's. It is modelled as the same five-member enum.
- VariantCrud.VariantStore.DeleteItem: a database that enforces foreign keys would reject this delete. The model follows the code as written, which leaves dangling records.
- Row order from the database is unspecified. `get_items` promises every item once in no particular order, and histories keep insertion order.
- Items are values, not ORM objects: the identity and aliasing of the object `update_item` mutates are not modelled.
- The frontend, `database.py`, `main.py` and the variant's routes are not part of this model.

## Where the code and its own documentation differ

The model follows the code in each of these cases:

- The docstring of the `/movements/{product_id}` route (src/backend/controller/routes.py:114-115) says it raises a 404 when no movements are found. `get_product_movement_history` returns a list (`.all()`), never `None`, so that 404 cannot happen. The route returns an empty list (`BackendRoutes.GetProductMovementHistory`).
- The code commits the item first and then its movement (src/backend/controller/crud.py:66 and 73, 99 and 116), so a stock change and its record are not one unit.
- `delete_item` deletes the movement records before it checks that the item exists. For an unknown id there are none, so nothing is lost (`BackendLedger.AbsentHasNoMovements`).
- The `ItemUpdate` docstring (src/backend/schemas/schema.py:49-57) lists every field as optional. Under pydantic v2, `produto` and `unidade_medida` are `Optional` without a default, which makes them required keys.
