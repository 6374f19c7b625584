/**
 * The records the ledger engine reads from and writes to the record store,
 * the generic search helper `buscarRegistroDeCampoEnTabla`, and the
 * append-only table of created movements.
 */
module Records {
  import opened Wrappers

  /** A record id of the store. */
  type Id = string

  /** `GESTIÓN`: the size class of a product, which governs the weekly quota. */
  datatype SizeClass = Grande | Mediana | Pequena

  /** `TIPO-CUENTA`. */
  datatype AccountType = Corriente | Tarjeta | Jubilacion | Ahorro

  /** `MEDIO`: check (TALÓN), debit card (TARJETA-DÉBITO) or income (INGRESO). */
  datatype Medium = Talon | TarjetaDebito | Ingreso

  /** A CUENTAS record, reduced to what the engine uses. */
  datatype Account = Account(id: Id, kind: AccountType)

  /**
   * A MOVIMIENTOS record as the store returns it. Apart from `id` and
   * `account`, every field is a lookup or formula the store computes;
   * `None` stands for a field the store omits.
   */
  datatype MovementView = MovementView(
    id: Id,
    account: Id,                  // CUENTA
    sameWeek: Option<int>,        // MISMA-SEMANA
    gestion: Option<SizeClass>,   // first value of the GESTIÓN lookup
    frequency: Option<string>,    // first value of the FRECUENCIA lookup
    concept: Option<string>,      // first value of CONCEPTO-LITERAL
    periods: Option<real>,        // TIEMPO-DESDE-MOVIMIENTO
    amount: real,                 // IMPORTE
    merchant: Option<string>,     // first value of MERCADER
    particular: Option<real>)     // IMPORTE-PARTICULAR

  /** The fields the engine writes when it creates a movement. */
  datatype MovementFields = MovementFields(
    account: Id,                  // CUENTA
    product: Id,                  // CONCEPTO
    medium: Medium,               // MEDIO
    particular: Option<real>)     // IMPORTE-PARTICULAR, absent on a simple movement

  /** A PRODUCTOS-SERVICIOS catalog entry. */
  datatype Product = Product(
    id: Id,
    name: string,                 // NOMBRE
    gestion: Option<SizeClass>,   // GESTIÓN
    price: Option<real>)          // PRECIO

  /** A PERSONAJES record: the character a participant plays. */
  datatype Character = Character(
    occupation: Option<string>,   // PERSONAJE
    minCardPayment: Option<real>, // PAGO-MÍNIMO-TARJETA-CRÉDITO
    accounts: seq<Id>)            // CUENTA, absent when empty

  /** A PERSONAS record: the participant and the link to their character. */
  datatype Participant = Participant(character: Option<Id>)   // PERSONAJE

  /** A record as a plain field map, as a whole-table listing returns it. */
  datatype Row = Row(id: Id, fields: map<string, string>)

  /** The uncaught exceptions that end a flow of the engine. */
  datatype Cause =
    | NoAccounts                     // the character has no linked account
    | NoCurrentAccount               // no CORRIENTE account among them
    | NoLinkedMovements              // the current account has no MOVIMIENTO link
    | MissingOccupation              // `concepto + "|" + None`
    | ProductNotFound(concept: string) // no catalog entry for a periodic concept
    | UnclassifiedProduct            // the chosen product has no GESTIÓN
    | ProfessionNotLoaded            // the character record was not loaded
    | MissingMinimumPayment          // no PAGO-MÍNIMO-TARJETA-CRÉDITO field

  /** `reg["fields"].get(nombreCampo) == dato`: a missing field never matches. */
  predicate Matches(r: Row, field: string, value: string)
  {
    field in r.fields && r.fields[field] == value
  }

  /** `buscarRegistroDeCampoEnTabla`: the ids of the rows whose field holds the value, in table order. */
  function FindByField(table: seq<Row>, field: string, value: string): (ids: seq<Id>)
    ensures |ids| <= |table|
  {
    if table == [] then []
    else (if Matches(table[0], field, value) then [table[0].id] else [])
         + FindByField(table[1..], field, value)
  }

  /** FindByField returns the id of every matching row and of no other row. */
  lemma {:induction false} FindByFieldMembers(table: seq<Row>, field: string, value: string, id: Id)
    ensures id in FindByField(table, field, value) <==>
      exists i :: 0 <= i < |table| && table[i].id == id && Matches(table[i], field, value)
  {
    if table != [] {
      FindByFieldMembers(table[1..], field, value, id);
      if exists i :: 0 <= i < |table| && table[i].id == id && Matches(table[i], field, value) {
        var i :| 0 <= i < |table| && table[i].id == id && Matches(table[i], field, value);
        if i > 0 {
          assert table[1..][i - 1] == table[i];
        }
      }
      if exists i :: 0 <= i < |table[1..]| && table[1..][i].id == id && Matches(table[1..][i], field, value) {
        var i :| 0 <= i < |table[1..]| && table[1..][i].id == id && Matches(table[1..][i], field, value);
        assert table[i + 1] == table[1..][i];
      }
    }
  }

  /** The first id FindByField returns, the one callers fetch, is that of the first matching row. */
  lemma {:induction false} FindByFieldFirst(table: seq<Row>, field: string, value: string, k: nat)
    requires k < |table| && Matches(table[k], field, value)
    requires forall j :: 0 <= j < k ==> !Matches(table[j], field, value)
    ensures FindByField(table, field, value) != []
    ensures FindByField(table, field, value)[0] == table[k].id
  {
    if k > 0 {
      assert !Matches(table[0], field, value);
      forall j | 0 <= j < k - 1 ensures !Matches(table[1..][j], field, value) {
        assert table[1..][j] == table[j + 1];
      }
      FindByFieldFirst(table[1..], field, value, k - 1);
    }
  }

  /** The movements of one account: the account's MOVIMIENTO link, in table order. */
  function LinkedMovements(ms: seq<MovementView>, account: Id): (r: seq<MovementView>)
    ensures |r| <= |ms|
    ensures forall m :: m in r <==> m in ms && m.account == account
  {
    if ms == [] then []
    else (if ms[0].account == account then [ms[0]] else []) + LinkedMovements(ms[1..], account)
  }

  /** The MOVIMIENTOS table as the engine sees it: rows are only ever appended. */
  class MovementLog {
    /** Every movement created, in creation order. */
    var rows: seq<MovementFields>

    constructor ()
      ensures rows == []
    {
      rows := [];
    }

    /** `crearRegistroEnTabla(tablas["MOVIMIENTOS"], fields)`. */
    method Create(f: MovementFields)
      modifies this
      ensures rows == old(rows) + [f]
    {
      rows := rows + [f];
    }
  }
}
