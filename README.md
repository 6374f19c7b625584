# VILLARBOLSILLO ledger engine, modelled in Dafny

VILLARBOLSILLO is a financial-literacy game. A participant plays a character
who holds a current account (CORRIENTE) and optionally a credit card,
retirement and savings account (TARJETA, JUBILACIÓN, AHORRO). The character
spends on catalog products (PRODUCTOS-SERVICIOS) and receives periodic
income and bills. Every action is a record in the MOVIMIENTOS table.

This project models the ledger engine behind "new movement"
(`nuevoMovimiento`) and proves properties of it:

- **Account resolution.** `prepararCuentas` takes the first linked
  account of each type.
- **The weekly action budget and the periodic harvest.** `pilaMov` derives
  the budget (GESTIONABILIDAD: 2 large, 4 medium and 8 small actions a
  week) from the current account's history. The same pass harvests the
  periodic movements.
- **Periodic reconciliation.** `contarConceptos`,
  `registrarMovPeriodicosPendientes` and `anadirUltimosMovPeriodicos`
  backfill the income and bills that fell due while nobody played.
- **The guard chain of `nuevoMovimiento` and its routing.** A movement
  becomes either one simple movement on the current account or a transfer.
  A transfer is a debit on the current account and a credit on the card,
  retirement or savings account.
- **Smaller helpers.**
  - The `Pila` stack.
  - The name validators.
  - `buscarRegistroDeCampoEnTabla`.
  - The running balances of `listaMovimientos` and `elegirMovimiento`.
  - The 4% refund of `modificarMovimiento`.
  - The guards of `borrarCuenta` and `borrarPersonaje`.
  - The account checks of `nuevaCuenta`.

The record store (Airtable in the original) is replaced by two parts:

- a snapshot of what a flow reads when it starts (`Router.Snapshot`);
- an append-only table of created movements (`Records.MovementLog`, a
  class whose `rows` only grow).

Store-computed fields (MISMA-SEMANA, TIEMPO-DESDE-MOVIMIENTO, IMPORTE,
SALDO, the lookups) are inputs. Amounts are `real`.

When a flow ends in an uncaught Python exception, the model returns a
`Crashed(cause)` status together with the writes already made. Examples are
a `None` subscripted or a product lookup that found nothing.

Files, one module each:

| file | module | models |
|---|---|---|
| wrappers.dfy | Wrappers | `Option`, `Result` |
| stacks.dfy | Stacks | `Pila` |
| validation.dfy | Validation | `Validacion` |
| records.dfy | Records | record shapes, `buscarRegistroDeCampoEnTabla`, the MOVIMIENTOS table |
| accounts.dfy | Accounts | the first-of-type comprehensions of `prepararCuentas` |
| quotas.dfy | Quotas | `pilaMov` |
| periodic.dfy | Periodic | `contarConceptos`, `registrarMovPeriodicosPendientes`, `anadirUltimosMovPeriodicos` |
| router.dfy | Router | `prepararCuentas` and `nuevoMovimiento` |
| listing.dfy | Listing | the balance loops of `listaMovimientos` and `elegirMovimiento`, the refund of `modificarMovimiento` |
| deletion.dfy | Deletion | the guards of `borrarCuenta` and `borrarPersonaje` |
| opening.dfy | Opening | the account checks of `nuevaCuenta` |

### Behaviour a reader might expect otherwise

The model follows the code in each of these cases.

- **Solvency.** One might expect an expense to be refused when it is larger
  than the balance: a price of -25.00 on a balance of 10.00, for example.
  The code tests `coste < 0 and coste > saldo` (line 934). That lets the
  example through and refuses only when the balance is below the price. The
  test is kept literally. `Router.SolvencyAsWrittenAdmitsOverdraft` states
  both directions of that example.
- **Duplicate accounts.** Two accounts of the same type are not reported as
  an error. The code silently takes the first one (lines 730-748;
  `Accounts.FirstOfTypeIsFirst`).
- **Writes before the guards.** A failed guard does not leave the table
  untouched. The code runs the periodic backfill before every guard (line
  879), so a rejected movement still leaves the backfilled movements
  (`Router.FailedRunsWriteOnlyBackfill`).
- **Quota decrement.** The weekly quota is not only derived from the
  movement history. The code also decrements `datosPersona["GESTIONABILIDAD"]`
  in memory, exactly once: between the two legs of a transfer (lines 1029,
  1050 and 1071), or after a simple movement (line 1084). That local copy is
  what `NewMovement` returns as `quota`.
- **Backfill order.** `pivot_table` sorts its index, so the groups are
  backfilled in code-point order of (CONCEPTO, FRECUENCIA) (`Periodic.GroupKeys`).
  The order decides which groups are written before a failing lookup stops
  the backfill.

### Source behaviour kept as written

- An absent PRECIO, or a SALDO whose first value is None, skips the whole
  solvency and transfer block (line 930). The movement is then simple, even for the three transfer
  products (`Router.SimpleLegOnCurrent`).
- A product without GESTIÓN makes `get(None) - 1` raise at line 914
  (`Crashed(UnclassifiedProduct)`).
- A character without linked accounts makes `prepararCuentas` return
  `None`, and line 867 then raises. A character with no CORRIENTE account
  makes `pilaMov` subscript `None`. A current account without movements
  makes the loop at line 675 iterate `None`.
- In `pilaMov`, every TypeError of the try-block skips the rest of that
  movement:
  - a same-week movement without GESTIÓN, which also keeps the quota
    unchanged;
  - a missing FRECUENCIA, CONCEPTO-LITERAL or TIEMPO-DESDE-MOVIMIENTO.

  `int()` truncates toward zero (`Quotas.TruncateToInt`).
- The backfill stops at the first group whose product lookup fails. The
  movements created before that point stay (`Periodic.BackfillStopsAtFailure`).
- `borrarCuenta` looks only at the first linked account (line 1553).
- `borrarPersonaje` is defined twice (lines 1518 and 1602). The later
  definition, with a bare `except`, is the one in effect, and the model
  follows it.
- The occupation used for MENSUALIDAD is the PERSONAJE field of the
  character record, as line 812 reads it.

## Model

| member | source | states |
|---|---|---|
| Stacks.Stack.constructor | VILLARBOLSILLO.py:35-38 | a new stack is empty |
| Stacks.Stack.Push | VILLARBOLSILLO.py:40-43 | the element goes on top; nothing else changes |
| Stacks.Stack.Pop | VILLARBOLSILLO.py:45-51 | an empty stack gives the EmptyStack error and stays empty; otherwise the top is returned and removed, the rest unchanged |
| Stacks.Stack.IsEmpty | VILLARBOLSILLO.py:53-55 | true exactly when there are no items |
| Validation.ValidateName | VILLARBOLSILLO.py:64-67 | accepted (True) exactly when the length is 2..50; otherwise an error naming the field and the actual length |
| Validation.ValidateFirstSurname | VILLARBOLSILLO.py:69-72 | the same bounds for the first surname, with its own field tag |
| Records.FindByField | VILLARBOLSILLO.py:1677-1694 | never more ids than rows |
| Records.FindByFieldMembers | VILLARBOLSILLO.py:1692-1694 | an id is returned exactly when some row with that id has the field equal to the value; a missing field never matches |
| Records.FindByFieldFirst | VILLARBOLSILLO.py:1692-1694 | the first id returned is that of the first matching row, in table order |
| Records.LinkedMovements | VILLARBOLSILLO.py:660-679 | exactly the movements whose CUENTA is the account, never more than the table |
| Records.MovementLog.Create | VILLARBOLSILLO.py:182 | creating a movement appends it and changes nothing else |
| Accounts.OfType | VILLARBOLSILLO.py:730-748 | exactly the linked accounts of that TIPO-CUENTA |
| Accounts.FirstOfTypeIsFirst | VILLARBOLSILLO.py:729-748 | an account of a type is resolved exactly when one is linked; it is of that type and no earlier linked account is |
| Accounts.ResolvedSlots | VILLARBOLSILLO.py:718-763 | resolution fails exactly when there is no linked account; otherwise each slot is filled exactly when an account of its type is linked |
| Quotas.Quota.Decrement | VILLARBOLSILLO.py:684-688 | one class drops by exactly one, the other two are unchanged |
| Quotas.StepQuota | VILLARBOLSILLO.py:682-688 | a movement lowers a class by one exactly when it is a same-week movement of that class |
| Quotas.QuotaIsCapMinusSameWeek | VILLARBOLSILLO.py:664-688 | the remaining quota of a class is its cap (2, 4, 8) minus the same-week movements of that class |
| Quotas.QuotaNeverAboveCap | VILLARBOLSILLO.py:664-688 | the remaining quota never exceeds the cap |
| Quotas.TruncateToInt | VILLARBOLSILLO.py:692 | truncation toward zero: within one unit of the input, on the side of zero |
| Quotas.HarvestSound | VILLARBOLSILLO.py:690-700 | every harvested entry has a non-empty frequency and comes from a movement of the history |
| Quotas.HarvestComplete | VILLARBOLSILLO.py:677-703 | every movement that passes the try-block with a frequency is harvested |
| Periodic.HarvestGroupCount | VILLARBOLSILLO.py:766-781 | the CUENTA of a group is the number of movements of the history harvested into that group |
| Quotas.ScanMovements | VILLARBOLSILLO.py:657-705 | the stack holds the history in order; the quota and the periodic list are those of the whole history |
| Periodic.CountConceptsGroups | VILLARBOLSILLO.py:766-781 | a (concept, frequency) group exists exactly when an entry has that key; CUENTA is the group size; PENDIENTES is the group's largest PERÍODOS, attained by one of its entries |
| Periodic.BackfilledGroupBalances | VILLARBOLSILLO.py:803-828 | adding exactly the deficit of a group, with periods within its maximum, leaves that group with no deficit |
| Periodic.DistinctKeys | VILLARBOLSILLO.py:771-776 | every group key once, and nothing else |
| Periodic.KeyLessOrder | VILLARBOLSILLO.py:771-776 | the order of the pivot table's index, by CONCEPTO then FRECUENCIA, compared by code point, is a strict total order |
| Periodic.InsertKey | VILLARBOLSILLO.py:771-776 | inserting a new key into a sorted index adds exactly that key and keeps the index strictly sorted |
| Periodic.SortKeys | VILLARBOLSILLO.py:771-776 | the sorted index is a permutation of the keys, strictly increasing when no key repeats |
| Periodic.GroupKeys | VILLARBOLSILLO.py:771-776 | the index of `contarConceptos`'s table: every group key once, nothing else, in strictly increasing order |
| Periodic.PendingKeys | VILLARBOLSILLO.py:847-851 | exactly the groups whose CUENTA differs from PENDIENTES, without repetition, in the index's sorted order |
| Periodic.Repeat | VILLARBOLSILLO.py:827-828 | `n` creations of the same fields |
| Periodic.GroupWritesShape | VILLARBOLSILLO.py:803-825 | a group adds nothing when PENDIENTES ≤ CUENTA; otherwise exactly the deficit, all on the current account: MENSUALIDAD as INGRESO with the product keyed `concept\|occupation`, any other concept by TALÓN with the product named after it |
| Periodic.BackfillTotal | VILLARBOLSILLO.py:801-828 | a backfill without failure adds exactly the sum of the pending groups' deficits |
| Periodic.BalancedGroupsAddNothing | VILLARBOLSILLO.py:803-805 | groups with no deficit add nothing and do not fail |
| Periodic.SecondPassAddsNothing | VILLARBOLSILLO.py:838-853 | a second reconciliation that sees the backfilled entries, within each group's maximum, adds nothing |
| Periodic.BackfillStopsAtFailure | VILLARBOLSILLO.py:818-823 | once a group's product lookup has raised, later groups add nothing |
| Periodic.AddGroupMovements | VILLARBOLSILLO.py:803-828 | one group's loop appends exactly that group's movements, or nothing when its lookup fails |
| Periodic.AddPendingPeriodic | VILLARBOLSILLO.py:784-828 | the table gains the backfill's movements in order and the first failure is reported |
| Periodic.RegisterPendingPeriodic | VILLARBOLSILLO.py:831-853 | the same for the whole reconciliation; no periodic entries means no writes |
| Router.RoutedHasClass | VILLARBOLSILLO.py:912-917 | a movement is only routed for a product with a GESTIÓN class that has an action left |
| Router.ExhaustedWeekRejects | VILLARBOLSILLO.py:899-905 | when all three classes are at or below zero, nothing is routed, whatever the product |
| Router.ExhaustedClassRejects | VILLARBOLSILLO.py:912-917 | the class guard rejects exactly when some class is left, the product is classified and its class has remaining − 1 < 0 |
| Router.InsolventExactly | VILLARBOLSILLO.py:930-937 | the solvency guard rejects exactly when the earlier guards pass, price and balance are known, the merchant is not DEDO DEL DESTINO and `price < 0 and price > balance` |
| Router.ChanceMerchantNeverInsolvent | VILLARBOLSILLO.py:932-934 | DEDO DEL DESTINO is never rejected by the solvency guard |
| Router.SolvencyAsWrittenAdmitsOverdraft | VILLARBOLSILLO.py:934 | a price of −25.00 on a balance of 10.00 passes the guard; on a balance of −30.00 it is refused |
| Router.MissingTargetRejects | VILLARBOLSILLO.py:945-993 | a transfer product is rejected, naming its account, exactly when the earlier guards pass and its card, retirement or savings account is missing |
| Router.PairedLegsCancel | VILLARBOLSILLO.py:1011-1072 | a transfer debits the current account and credits the target with opposite IMPORTE-PARTICULAR on the chosen product; for the two contributions the amount is the one entered |
| Router.SimpleLegOnCurrent | VILLARBOLSILLO.py:1074-1084 | a simple movement is one current-account movement with no IMPORTE-PARTICULAR; a transfer product ends up simple only when price or balance is missing |
| Router.CardPaymentPairsLegs | VILLARBOLSILLO.py:952-967 | with the profession record loaded, a card payment that passes the guards is a transfer of minimum + extra, with extra ≥ 0, to the card account |
| Router.CardPaymentCrashesAsWritten | VILLARBOLSILLO.py:869-958 | as written, a card payment that passes the guards always raises before any write |
| Router.CardPaymentRunCrashesAsWritten | VILLARBOLSILLO.py:862-958 | the whole run as written: a card payment that passes the guards with a card account raises and leaves exactly the backfill, with the quota unchanged; the run reading the accented key records the transfer to the card |
| Router.FailedRunsWriteOnlyBackfill | VILLARBOLSILLO.py:866-1004 | a run that is rejected or raises leaves only the backfilled movements, or none when the accounts could not be prepared |
| Router.RecordedRunShape | VILLARBOLSILLO.py:1011-1084 | a recorded run adds, after the backfill, one current-account movement or a debit on the current account then a credit on the target summing to zero; the chosen class's quota drops by exactly one and the other classes are unchanged |
| Router.RouteAndWrite | VILLARBOLSILLO.py:899-1084 | the guards and writes after the backfill: the status, the final quota and the table's new rows are those of the routing decision |
| Router.NewMovement | VILLARBOLSILLO.py:862-1088 | the whole flow, with the profession read under the given key (`Unaccented` as written): status, final quota and appended rows are those of `NewMovementRun`, about which the lemmas above are stated |
| Listing.RunningBalances | VILLARBOLSILLO.py:1280-1290 | one SALDO per movement, each the sum of IMPORTE up to and including that movement |
| Listing.BalanceAppend | VILLARBOLSILLO.py:1280-1290 | the balance of two runs of movements is the sum of their balances |
| Listing.RowsOfListed | VILLARBOLSILLO.py:1149-1166 | every listed row shows a returnable movement (with a merchant and no IMPORTE-PARTICULAR) at its own option number, with the balance up to it |
| Listing.RowsOfOrdered | VILLARBOLSILLO.py:1149-1166 | the rows are in increasing option order |
| Listing.RowsOfComplete | VILLARBOLSILLO.py:1149-1166 | every returnable movement has its row |
| Listing.ReturnableRows | VILLARBOLSILLO.py:1146-1166 | the loop lists exactly those rows, with those three properties |
| Listing.RefundOverride | VILLARBOLSILLO.py:1246-1248 | the refund added to the original amount leaves the 4% penalty; a refunded expense gives back 96% of it as a positive amount |
| Listing.RefundChoice | VILLARBOLSILLO.py:1182-1196 | an override is written exactly when an option other than −1 is chosen and confirmed; it targets the movement at that position, with the refund amount |
| Deletion.DeleteAccountDecision | VILLARBOLSILLO.py:1548-1570 | nothing to delete exactly when there is no linked account; refused exactly when a movement is on the first linked account; deleted only on confirmation, and then no movement references it |
| Deletion.ApplyAccountDeletion | VILLARBOLSILLO.py:1566-1568 | exactly the deleted account leaves the table |
| Deletion.DeletionKeepsMovementsLinked | VILLARBOLSILLO.py:1559-1570 | if every movement was on an existing account, it still is after the deletion |
| Deletion.DeleteCharacterDecision | VILLARBOLSILLO.py:1602-1628 | nothing to do exactly when no character is linked or loaded; refused exactly when the character has a CUENTA; unlinked exactly on confirmation otherwise |
| Deletion.ApplyCharacterDeletion | VILLARBOLSILLO.py:1620-1623 | unlinking empties PERSONAJE; any other decision changes nothing |
| Opening.KindsOf | VILLARBOLSILLO.py:1352-1358 | the TIPO-CUENTA of each linked account, in order |
| Opening.Created | VILLARBOLSILLO.py:1346-1470 | CORRIENTE and TARJETA are created exactly for a character without accounts; AHORRO and JUBILACIÓN exactly when their flag is unset and the answer is S |
| Opening.CreatedPlanCount | VILLARBOLSILLO.py:1424-1470 | each plan account is created at most once, and not at all when its flag is set |
| Opening.OpenAsWrittenDuplicatesSavings | VILLARBOLSILLO.py:1356-1358 | as written, a character with a savings account who answers S gets a second one |
| Opening.OpenIntendedKeepsOnePerPlan | VILLARBOLSILLO.py:1352-1358 | with the flags set, a character with at most one savings (retirement) account still has at most one afterwards |

## Left out

- Input and output, and the prompt loops:
  - menus and navigation (`comienzo`, `opcionesParticipante`, `operacionesPersonaje` and the rest);
  - printing, PrettyTable and pandas rendering;
  - the `while importe == 0` and `opcion` prompts.

  The prompts become parameters with preconditions (`Router.AmountAccepted`;
  the option range of `Listing.RefundChoice`).
- `Router.NewMovement`: the payment medium comes from `pedirDatosMovimiento`
  (lines 644-654), which offers only TALÓN and TARJETA-DÉBITO. This is the
  precondition `c.medium != Ingreso`.
- Credentials: the password prompt, the global `atk` and `os.environ` are
  not part of this model.
- The Airtable `Table` client is replaced by the in-memory snapshot and the
  append-only table.
  - Store failures are not modelled. Neither is the `os._exit` in
    `crearRegistroEnTabla` (line 182), nor a failure between the two legs of
    a transfer beyond their write order.
  - The snapshot is never re-read during a flow, as in the code.
- `Router.Snapshot`: SALDO is the first value of the participant's lookup.
  A missing SALDO field raises at `[0]` on line 923, and that crash is not
  modelled.
- `Listing.RunningBalances`, `Listing.ReturnableRows`: a movement without
  CONCEPTO-LITERAL makes `get("CONCEPTO-LITERAL")[0]` raise (lines 1158 and
  1288). The loops are modelled for histories where every movement has it,
  and that crash is not modelled.
- The pandas and numpy mechanics of `contarConceptos` are replaced by their
  count and maximum semantics.
- Money is exact `real` arithmetic. Float rounding, including the 0.04 of
  the refund, is not modelled.
- `elegirMovimiento`: `get_string()` of a table with a header is never
  empty, so the "no products can be returned" branch (lines 1173-1176) is
  unreachable and not modelled.
- `modificarMovimiento`, `elegirMovimiento`: any position of the account's
  movements can be chosen, including one not listed as a row. The model
  keeps this.
- `Deletion.DeleteAccountDecision`: the account's MOVIMIENTO link is taken
  as the movements whose CUENTA is that account.
- `elegirCuenta`, `borrarMovimiento`, `borrarTodosMovimientos`,
  `borrarParticipante`, `clonarMarco` and the record display functions are
  not part of this model.
- `Stacks.Stack`: `pilaMov` pushes every movement, but the engine never
  pops. Popping is modelled for the stack alone.

## Findings

| source | as written | input that shows it | evidently intended | confidence | as-written member | corrected member |
|---|---|---|---|---|---|---|
| VILLARBOLSILLO.py:869 | `datosPersona.get("PROFESION")` lacks the accent of the key stored at line 755, so `regProfesion` is None and line 958 raises TypeError | PAGO DEUDA TARJETA with known price and balance, a card account, budget left and the solvency guard passed | read `datosPersona["PROFESIÓN"]`, so the minimum payment of line 958 is found | high; not executed | Router.CardPaymentRunCrashesAsWritten | Router.CardPaymentPairsLegs |
| VILLARBOLSILLO.py:1356-1358 | `tieneCuentaJubilacion == True` and `tieneCuentaAhorro == True` compare and discard the result, so both flags stay False | a character with accounts CORRIENTE and AHORRO whose participant answers S to the savings prompt | assignment (`= True`), so an existing plan account is not offered again | high; not executed | Opening.OpenAsWrittenDuplicatesSavings | Opening.OpenIntendedKeepsOnePerPlan |

`Router.NewMovement` and `Router.NewMovementRun` take the profession key as a
parameter: `Unaccented` runs the code as written, and `Accented` runs the
corrected lookup (`Router.ProfessionIntended`). `Router.CardPaymentRunCrashesAsWritten`
states the difference for a whole run. `Opening.OpenIntended` is the corrected
account check.
