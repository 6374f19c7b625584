/**
 * `nuevoMovimiento`: resolves the accounts, scans the current account,
 * backfills pending periodic movements, runs the guards in order and writes
 * one simple movement or a paired movement.
 */
module Router {
  import opened Wrappers
  import opened Records
  import opened Accounts
  import opened Quotas
  import opened Periodic

  /** The three products of the cooperative bank that move money between two accounts. */
  const PagoDeudaTarjeta: string := "PAGO DEUDA TARJETA"
  const AportacionJubilacion: string := "APORTACIÓN CUENTA JUBILACIÓN"
  const PlanAhorro: string := "PLAN AHORRO"

  /** The chance merchant, exempt from the solvency guard. */
  const DedoDelDestino: string := "DEDO DEL DESTINO"

  /** What the flow reads from the store when it starts. */
  datatype Snapshot = Snapshot(
    accounts: seq<Account>,        // the character's CUENTA links, fetched
    movements: seq<MovementView>,  // the MOVIMIENTOS table
    catalog: seq<Row>,             // NOMBRE and PRODUCTO-SERVICIO of every catalog entry
    character: Character,          // the PERSONAJES record (`PROFESIÓN`)
    balance: Option<real>)         // first value of the participant's SALDO lookup

  /** What the participant chose in `pedirDatosMovimiento`: a product, its merchant's name and a medium. */
  datatype Choice = Choice(product: Product, merchant: string, medium: Medium)

  datatype Shape = SimpleMovement | PairedMovement(target: AccountType)

  /** The guards that print a message and return. */
  datatype Reason = WeekExhausted | ClassExhausted | Insolvent | MissingAccount(kind: AccountType)

  datatype Status = Recorded(shape: Shape) | Rejected(reason: Reason) | Crashed(cause: Cause)

  /** `datosPersona` as `prepararCuentas` builds it. */
  datatype Prepared = Prepared(accounts: AccountSet, current: Account, quota: Quota, periodic: seq<PeriodicEntry>)

  /**
   * `prepararCuentas` up to the scan: no linked account makes it return None
   * (the caller's `.get` then raises), no CORRIENTE account makes `pilaMov`
   * index None, and a current account without movements makes it iterate None.
   */
  function Prepare(s: Snapshot): Result<Prepared, Cause>
  {
    match ResolveAccounts(s.accounts)
    case None => Err(NoAccounts)
    case Some(accounts) =>
      if accounts.current.None? then Err(NoCurrentAccount)
      else
        var current := accounts.current.value;
        var history := LinkedMovements(s.movements, current.id);
        if history == [] then Err(NoLinkedMovements)
        else Ok(Prepared(accounts, current, QuotaOf(history), Harvest(history)))
  }

  /** The movement(s) the guards let through, or why they stopped. */
  datatype Decision =
    | Reject(reason: Reason)
    | Crash(cause: Cause)
    | Simple(leg: MovementFields)
    | Paired(target: AccountType, debit: MovementFields, credit: MovementFields)

  /** The solvency test exactly as written at line 934: `coste < 0 and coste > saldo`. */
  predicate InsolventAsWritten(price: real, balance: real)
  {
    price < 0.0 && price > balance
  }

  /** A movement on the current account with the product's own price: no IMPORTE-PARTICULAR. */
  function SimpleLeg(current: Account, c: Choice): MovementFields
  {
    MovementFields(current.id, c.product.id, c.medium, None)
  }

  /** The two legs of a transfer: `-importe` on the current account, `+importe` on the target. */
  function PairedLegs(t: AccountType, current: Account, target: Account, c: Choice, importe: real): Decision
  {
    Paired(t, MovementFields(current.id, c.product.id, c.medium, Some(-importe)),
              MovementFields(target.id, c.product.id, c.medium, Some(importe)))
  }

  /**
   * The guards of `nuevoMovimiento` in source order, then the routing.
   * `profession` is the record the card-payment branch reads its minimum from.
   * When PRECIO or SALDO is missing the whole block is skipped and the
   * movement is simple, even for the three transfer products.
   */
  function Route(accounts: AccountSet, current: Account, quota: Quota, balance: Option<real>,
                 profession: Option<Character>, c: Choice, entered: real): Decision
  {
    if quota.AllExhausted() then Reject(WeekExhausted)
    else if c.product.gestion.None? then Crash(UnclassifiedProduct)
    else if quota.Get(c.product.gestion.value) - 1 < 0 then Reject(ClassExhausted)
    else if c.product.price.None? || balance.None? then Simple(SimpleLeg(current, c))
    else if c.merchant != DedoDelDestino && InsolventAsWritten(c.product.price.value, balance.value) then
      Reject(Insolvent)
    else if c.product.name == PagoDeudaTarjeta then
      if accounts.card.None? then Reject(MissingAccount(Tarjeta))
      else if profession.None? then Crash(ProfessionNotLoaded)
      else if profession.value.minCardPayment.None? then Crash(MissingMinimumPayment)
      else PairedLegs(Tarjeta, current, accounts.card.value, c, profession.value.minCardPayment.value + entered)
    else if c.product.name == AportacionJubilacion then
      if accounts.retirement.None? then Reject(MissingAccount(Jubilacion))
      else PairedLegs(Jubilacion, current, accounts.retirement.value, c, entered)
    else if c.product.name == PlanAhorro then
      if accounts.savings.None? then Reject(MissingAccount(Ahorro))
      else PairedLegs(Ahorro, current, accounts.savings.value, c, entered)
    else Simple(SimpleLeg(current, c))
  }

  /**
   * The value the amount prompts accept (`while importe == 0`): a
   * non-negative extra whose sum with the minimum is not zero for the card
   * payment, a positive amount for the two contributions.
   */
  predicate AmountAccepted(p: Product, minPayment: Option<real>, entered: real)
  {
    if p.name == PagoDeudaTarjeta then entered >= 0.0 && (minPayment.Some? ==> minPayment.value + entered != 0.0)
    else if p.name == AportacionJubilacion || p.name == PlanAhorro then entered > 0.0
    else true
  }

  /** `datosPersona.get("PROFESION")`: the key lacks its accent, so the lookup finds nothing. */
  function ProfessionAsWritten(s: Snapshot): Option<Character>
  {
    None
  }

  /** The record stored under `PROFESIÓN`, which the card payment evidently means to read. */
  function ProfessionIntended(s: Snapshot): Option<Character>
  {
    Some(s.character)
  }

  /**
   * The key `nuevoMovimiento` reads the profession record under: the code
   * writes `PROFESION`, the record is stored under `PROFESIÓN`.
   */
  datatype ProfessionKey = Unaccented | Accented

  /** The record the lookup under `key` yields. */
  function ProfessionUnder(key: ProfessionKey, s: Snapshot): Option<Character>
  {
    match key
    case Unaccented => ProfessionAsWritten(s)
    case Accented => ProfessionIntended(s)
  }

  /** A whole run: its status, the movements it created and the final in-memory quota. */
  datatype Run = Run(status: Status, writes: seq<MovementFields>, quota: Option<Quota>)

  /** The backfill a run performs before its guards. */
  function BackfillOf(s: Snapshot, p: Prepared): Partial
  {
    Reconcile(p.periodic, s.catalog, s.character.occupation, p.current.id)
  }

  /** The run once the guards have decided, after the backfill `bf`. */
  function Finish(bf: seq<MovementFields>, q: Quota, d: Decision, c: Choice): Run
  {
    match d
    case Reject(r) => Run(Rejected(r), bf, Some(q))
    case Crash(cause) => Run(Crashed(cause), bf, Some(q))
    case Simple(leg) =>
      Run(Recorded(SimpleMovement), bf + [leg], if c.product.gestion.Some? then Some(q.Decrement(c.product.gestion.value)) else None)
    case Paired(t, debit, credit) =>
      Run(Recorded(PairedMovement(t)), bf + [debit, credit],
          if c.product.gestion.Some? then Some(q.Decrement(c.product.gestion.value)) else None)
  }

  /** The run once `prepararCuentas` has succeeded, reading the profession under `key`. */
  function AfterPrepare(s: Snapshot, p: Prepared, c: Choice, entered: real, key: ProfessionKey): Run
  {
    var bf := BackfillOf(s, p);
    if bf.failure.Some? then Run(Crashed(bf.failure.value), bf.done, Some(p.quota))
    else Finish(bf.done, p.quota, Route(p.accounts, p.current, p.quota, s.balance, ProfessionUnder(key, s), c, entered), c)
  }

  /**
   * `nuevoMovimiento` as a function of the snapshot, the choice and the
   * entered amount; `Unaccented` is the code as written.
   */
  function NewMovementRun(s: Snapshot, c: Choice, entered: real, key: ProfessionKey): Run
  {
    match Prepare(s)
    case Err(cause) => Run(Crashed(cause), [], None)
    case Ok(p) => AfterPrepare(s, p, c, entered, key)
  }

  /** Routed decisions always carry a size class: a product without one raises first. */
  lemma RoutedHasClass(accounts: AccountSet, current: Account, quota: Quota, balance: Option<real>,
                       profession: Option<Character>, c: Choice, entered: real)
    ensures var d := Route(accounts, current, quota, balance, profession, c, entered);
      (d.Simple? || d.Paired?) ==> c.product.gestion.Some? && quota.Get(c.product.gestion.value) >= 1
  {
  }

  /** No guard writes: every rejection or exception leaves only the backfill in the table. */
  lemma FailedRunsWriteOnlyBackfill(s: Snapshot, c: Choice, entered: real, key: ProfessionKey)
    ensures var run := NewMovementRun(s, c, entered, key);
      !run.status.Recorded? ==>
        (Prepare(s).Err? && run.writes == []) ||
        (Prepare(s).Ok? && run.writes == BackfillOf(s, Prepare(s).value).done)
  {
    if Prepare(s).Ok? {
      var p := Prepare(s).value;
      var bf := BackfillOf(s, p);
      if bf.failure.None? {
        var d := Route(p.accounts, p.current, p.quota, s.balance, ProfessionUnder(key, s), c, entered);
        assert NewMovementRun(s, c, entered, key) == Finish(bf.done, p.quota, d, c);
      }
    }
  }

  /**
   * A recorded run adds one current-account movement, or a debit on the
   * current account followed by a credit on the target, after the backfill;
   * and it lowers the chosen class's quota by exactly one, never two.
   */
  lemma RecordedRunShape(s: Snapshot, c: Choice, entered: real, key: ProfessionKey)
    ensures var run := NewMovementRun(s, c, entered, key);
      run.status.Recorded? ==>
        Prepare(s).Ok? && c.product.gestion.Some? &&
        var p := Prepare(s).value;
        var bf := BackfillOf(s, p).done;
        var cls := c.product.gestion.value;
        run.quota.Some? &&
        run.quota.value.Get(cls) == p.quota.Get(cls) - 1 &&
        (forall d :: d != cls ==> run.quota.value.Get(d) == p.quota.Get(d)) &&
        |run.writes| == |bf| + (if run.status.shape.SimpleMovement? then 1 else 2) &&
        run.writes[..|bf|] == bf &&
        run.writes[|bf|].account == p.current.id &&
        (run.status.shape.SimpleMovement? ==> run.writes[|bf|].particular.None?) &&
        (run.status.shape.PairedMovement? ==>
           var t := run.status.shape.target;
           p.accounts.Slot(t).Some? && run.writes[|bf| + 1].account == p.accounts.Slot(t).value.id &&
           run.writes[|bf|].particular.Some? && run.writes[|bf| + 1].particular.Some? &&
           run.writes[|bf|].particular.value + run.writes[|bf| + 1].particular.value == 0.0)
  {
    var run := NewMovementRun(s, c, entered, key);
    if run.status.Recorded? {
      var p := Prepare(s).value;
      var bf := BackfillOf(s, p);
      assert bf.failure.None?;
      var prof := ProfessionUnder(key, s);
      var d := Route(p.accounts, p.current, p.quota, s.balance, prof, c, entered);
      assert run == Finish(bf.done, p.quota, d, c);
      RoutedHasClass(p.accounts, p.current, p.quota, s.balance, prof, c, entered);
      PairedLegsCancel(p.accounts, p.current, p.quota, s.balance, prof, c, entered);
      SimpleLegOnCurrent(p.accounts, p.current, p.quota, s.balance, prof, c, entered);
      assert run.writes[..|bf.done|] == bf.done;
    }
  }

  /** Guard 1: with every class exhausted nothing is routed, whatever the product. */
  lemma ExhaustedWeekRejects(accounts: AccountSet, current: Account, quota: Quota, balance: Option<real>,
                             profession: Option<Character>, c: Choice, entered: real)
    requires quota.AllExhausted()
    ensures Route(accounts, current, quota, balance, profession, c, entered) == Reject(WeekExhausted)
  {
  }

  /** Guard 2: the chosen class must have an action left. */
  lemma ExhaustedClassRejects(accounts: AccountSet, current: Account, quota: Quota, balance: Option<real>,
                              profession: Option<Character>, c: Choice, entered: real)
    ensures Route(accounts, current, quota, balance, profession, c, entered) == Reject(ClassExhausted) <==>
      !quota.AllExhausted() && c.product.gestion.Some? && quota.Get(c.product.gestion.value) < 1
  {
  }

  /**
   * Guard 3, both directions: the solvency guard fires exactly when the
   * earlier guards pass, price and balance are known, the merchant is not
   * DEDO DEL DESTINO and `price < 0 and price > balance`.
   */
  lemma InsolventExactly(accounts: AccountSet, current: Account, quota: Quota, balance: Option<real>,
                         profession: Option<Character>, c: Choice, entered: real)
    ensures Route(accounts, current, quota, balance, profession, c, entered) == Reject(Insolvent) <==>
      !quota.AllExhausted() && c.product.gestion.Some? && quota.Get(c.product.gestion.value) >= 1 &&
      c.product.price.Some? && balance.Some? && c.merchant != DedoDelDestino &&
      c.product.price.value < 0.0 && c.product.price.value > balance.value
  {
  }

  /** DEDO DEL DESTINO is never stopped by the solvency guard. */
  lemma ChanceMerchantNeverInsolvent(accounts: AccountSet, current: Account, quota: Quota, balance: Option<real>,
                                     profession: Option<Character>, c: Choice, entered: real)
    requires c.merchant == DedoDelDestino
    ensures Route(accounts, current, quota, balance, profession, c, entered) != Reject(Insolvent)
  {
  }

  /** The account each transfer product needs. */
  function TargetOf(name: string): Option<AccountType>
  {
    if name == PagoDeudaTarjeta then Some(Tarjeta)
    else if name == AportacionJubilacion then Some(Jubilacion)
    else if name == PlanAhorro then Some(Ahorro)
    else None
  }

  /**
   * Guard 4, both directions: a transfer product whose target account is
   * missing is rejected, naming that account, once the earlier guards pass.
   */
  lemma MissingTargetRejects(accounts: AccountSet, current: Account, quota: Quota, balance: Option<real>,
                             profession: Option<Character>, c: Choice, entered: real, t: AccountType)
    ensures Route(accounts, current, quota, balance, profession, c, entered) == Reject(MissingAccount(t)) <==>
      !quota.AllExhausted() && c.product.gestion.Some? && quota.Get(c.product.gestion.value) >= 1 &&
      c.product.price.Some? && balance.Some? &&
      !(c.merchant != DedoDelDestino && InsolventAsWritten(c.product.price.value, balance.value)) &&
      TargetOf(c.product.name) == Some(t) && accounts.Slot(t).None?
  {
  }

  /**
   * A paired movement is a transfer product whose target exists: the debit is
   * on the current account, the credit on the target, with opposite amounts;
   * for the two contributions the amount is the one entered.
   */
  lemma PairedLegsCancel(accounts: AccountSet, current: Account, quota: Quota, balance: Option<real>,
                         profession: Option<Character>, c: Choice, entered: real)
    ensures var d := Route(accounts, current, quota, balance, profession, c, entered);
      d.Paired? ==>
        TargetOf(c.product.name) == Some(d.target) && accounts.Slot(d.target).Some? &&
        d.debit.account == current.id && d.credit.account == accounts.Slot(d.target).value.id &&
        d.debit.product == c.product.id && d.credit.product == c.product.id &&
        d.debit.particular.Some? && d.credit.particular.Some? &&
        d.debit.particular.value == -d.credit.particular.value &&
        (d.target != Tarjeta ==> d.credit.particular.value == entered)
  {
  }

  /** A simple movement is one current-account movement with no IMPORTE-PARTICULAR and the chosen medium. */
  lemma SimpleLegOnCurrent(accounts: AccountSet, current: Account, quota: Quota, balance: Option<real>,
                           profession: Option<Character>, c: Choice, entered: real)
    ensures var d := Route(accounts, current, quota, balance, profession, c, entered);
      d.Simple? ==>
        d.leg == MovementFields(current.id, c.product.id, c.medium, None) &&
        (TargetOf(c.product.name).Some? ==> c.product.price.None? || balance.None?)
  {
  }

  /**
   * The card payment, without the accent slip: both legs carry the minimum
   * payment plus the extra, which the prompt requires to be non-negative.
   */
  lemma CardPaymentPairsLegs(accounts: AccountSet, current: Account, quota: Quota, balance: Option<real>,
                             character: Character, c: Choice, entered: real)
    requires AmountAccepted(c.product, character.minCardPayment, entered)
    requires !quota.AllExhausted() && c.product.gestion.Some? && quota.Get(c.product.gestion.value) >= 1
    requires c.product.price.Some? && balance.Some?
    requires !(c.merchant != DedoDelDestino && InsolventAsWritten(c.product.price.value, balance.value))
    requires c.product.name == PagoDeudaTarjeta && accounts.card.Some? && character.minCardPayment.Some?
    ensures var d := Route(accounts, current, quota, balance, Some(character), c, entered);
      d.Paired? && d.target == Tarjeta && d.credit.account == accounts.card.value.id &&
      entered >= 0.0 &&
      d.credit.particular == Some(character.minCardPayment.value + entered) &&
      d.debit.particular == Some(-(character.minCardPayment.value + entered))
  {
  }

  /**
   * As written, the card payment reads its minimum from `regProfesion`, which
   * is None: once a card account exists it always raises before any write.
   */
  lemma CardPaymentCrashesAsWritten(s: Snapshot, accounts: AccountSet, current: Account, quota: Quota,
                                    c: Choice, entered: real)
    requires !quota.AllExhausted() && c.product.gestion.Some? && quota.Get(c.product.gestion.value) >= 1
    requires c.product.price.Some? && s.balance.Some?
    requires !(c.merchant != DedoDelDestino && InsolventAsWritten(c.product.price.value, s.balance.value))
    requires c.product.name == PagoDeudaTarjeta && accounts.card.Some?
    ensures Route(accounts, current, quota, s.balance, ProfessionAsWritten(s), c, entered) == Crash(ProfessionNotLoaded)
  {
  }

  /**
   * The whole run as written: once the backfill succeeds and the guards let a
   * card payment through with a card account present, `nuevoMovimiento`
   * raises and leaves only the backfill in the table, while the run that
   * reads the accented key records both legs of the payment.
   */
  lemma CardPaymentRunCrashesAsWritten(s: Snapshot, c: Choice, entered: real)
    requires Prepare(s).Ok? && BackfillOf(s, Prepare(s).value).failure.None?
    requires var p := Prepare(s).value;
      !p.quota.AllExhausted() && c.product.gestion.Some? && p.quota.Get(c.product.gestion.value) >= 1
    requires c.product.price.Some? && s.balance.Some?
    requires !(c.merchant != DedoDelDestino && InsolventAsWritten(c.product.price.value, s.balance.value))
    requires c.product.name == PagoDeudaTarjeta && Prepare(s).value.accounts.card.Some?
    ensures var bf := BackfillOf(s, Prepare(s).value).done;
      NewMovementRun(s, c, entered, Unaccented) == Run(Crashed(ProfessionNotLoaded), bf, Some(Prepare(s).value.quota))
    ensures AmountAccepted(c.product, s.character.minCardPayment, entered) && s.character.minCardPayment.Some? ==>
      NewMovementRun(s, c, entered, Accented).status == Recorded(PairedMovement(Tarjeta))
  {
    var p := Prepare(s).value;
    CardPaymentCrashesAsWritten(s, p.accounts, p.current, p.quota, c, entered);
    if AmountAccepted(c.product, s.character.minCardPayment, entered) && s.character.minCardPayment.Some? {
      CardPaymentPairsLegs(p.accounts, p.current, p.quota, s.balance, s.character, c, entered);
    }
  }

  /**
   * The literal solvency test lets an expense of 25.00 through on a balance of
   * 10.00: `-25 > 10` is false. Only a balance below the (negative) price is refused.
   */
  lemma SolvencyAsWrittenAdmitsOverdraft()
    ensures !InsolventAsWritten(-25.0, 10.0)
    ensures InsolventAsWritten(-25.0, -30.0)
  {
  }

  /**
   * The guards and writes of `nuevoMovimiento` after the backfill: in-memory
   * quota `q`, the movement(s) created in order, and the quota decremented
   * once between the two legs of a transfer.
   */
  method RouteAndWrite(log: MovementLog, accounts: AccountSet, current: Account, q: Quota, balance: Option<real>,
                       profession: Option<Character>, c: Choice, entered: real)
    returns (status: Status, quota: Option<Quota>)
    modifies log
    ensures var run := Finish([], q, Route(accounts, current, q, balance, profession, c, entered), c);
      status == run.status && quota == run.quota && log.rows == old(log.rows) + run.writes
  {
    var gestionabilidad := q;
    if gestionabilidad.AllExhausted() {
      return Rejected(WeekExhausted), Some(gestionabilidad);
    }
    var product := c.product;
    if product.gestion.None? {
      return Crashed(UnclassifiedProduct), Some(gestionabilidad);   // `get(None) - 1` raises
    }
    var gestion := product.gestion.value;
    if gestionabilidad.Get(gestion) - 1 < 0 {
      return Rejected(ClassExhausted), Some(gestionabilidad);
    }

    var importe: real := 0.0;
    var target: Option<(AccountType, Account)> := None;
    if product.price.Some? && balance.Some? {
      var coste, saldo := product.price.value, balance.value;
      if c.merchant != DedoDelDestino {
        if coste < 0.0 && coste > saldo {   // as written: not `-coste > saldo`
          return Rejected(Insolvent), Some(gestionabilidad);
        }
      }
      if product.name == PagoDeudaTarjeta {
        if accounts.card.None? {
          return Rejected(MissingAccount(Tarjeta)), Some(gestionabilidad);
        }
        if profession.None? {
          return Crashed(ProfessionNotLoaded), Some(gestionabilidad);
        }
        if profession.value.minCardPayment.None? {
          return Crashed(MissingMinimumPayment), Some(gestionabilidad);
        }
        importe := profession.value.minCardPayment.value + entered;
        target := Some((Tarjeta, accounts.card.value));
      } else if product.name == AportacionJubilacion {
        if accounts.retirement.None? {
          return Rejected(MissingAccount(Jubilacion)), Some(gestionabilidad);
        }
        importe := entered;
        target := Some((Jubilacion, accounts.retirement.value));
      } else if product.name == PlanAhorro {
        if accounts.savings.None? {
          return Rejected(MissingAccount(Ahorro)), Some(gestionabilidad);
        }
        importe := entered;
        target := Some((Ahorro, accounts.savings.value));
      }
    }

    if target.Some? {
      var (t, targetAccount) := target.value;
      log.Create(MovementFields(current.id, product.id, c.medium, Some(-importe)));
      gestionabilidad := gestionabilidad.Decrement(gestion);
      log.Create(MovementFields(targetAccount.id, product.id, c.medium, Some(importe)));
      status := Recorded(PairedMovement(t));
    } else {
      log.Create(MovementFields(current.id, product.id, c.medium, None));
      gestionabilidad := gestionabilidad.Decrement(gestion);
      status := Recorded(SimpleMovement);
    }
    quota := Some(gestionabilidad);
  }

  /** Prefixing the backfill changes only the writes of a finished run. */
  lemma FinishAfterBackfill(bf: seq<MovementFields>, q: Quota, d: Decision, c: Choice)
    ensures Finish(bf, q, d, c).status == Finish([], q, d, c).status
    ensures Finish(bf, q, d, c).quota == Finish([], q, d, c).quota
    ensures Finish(bf, q, d, c).writes == bf + Finish([], q, d, c).writes
  {
  }

  /**
   * `nuevoMovimiento`. The amount prompts are the parameter `entered`, which
   * must be a value they accept; the medium is TALÓN or TARJETA-DÉBITO.
   * Returns the run's status and the in-memory GESTIONABILIDAD at the end.
   */
  method NewMovement(log: MovementLog, s: Snapshot, c: Choice, entered: real, key: ProfessionKey)
    returns (status: Status, quota: Option<Quota>)
    requires c.medium != Ingreso
    requires AmountAccepted(c.product, s.character.minCardPayment, entered)
    modifies log
    ensures var run := NewMovementRun(s, c, entered, key);
      status == run.status && quota == run.quota && log.rows == old(log.rows) + run.writes
  {
    // prepararCuentas
    var resolved := ResolveAccounts(s.accounts);
    if resolved.None? {
      return Crashed(NoAccounts), None;
    }
    var accounts := resolved.value;
    if accounts.current.None? {
      return Crashed(NoCurrentAccount), None;
    }
    var current := accounts.current.value;
    var history := LinkedMovements(s.movements, current.id);
    if history == [] {
      return Crashed(NoLinkedMovements), None;
    }
    var pila, q, periodic := ScanMovements(history);
    ghost var p := Prepared(accounts, current, q, periodic);
    assert Prepare(s) == Ok(p);

    // registrarMovPeriodicosPendientes runs before every guard
    var failure := RegisterPendingPeriodic(log, periodic, s.catalog, s.character.occupation, current.id);
    ghost var bf := BackfillOf(s, p);
    assert NewMovementRun(s, c, entered, key) == AfterPrepare(s, p, c, entered, key);
    assert log.rows == old(log.rows) + bf.done && failure == bf.failure;
    if failure.Some? {
      assert AfterPrepare(s, p, c, entered, key) == Run(Crashed(failure.value), bf.done, Some(q));
      return Crashed(failure.value), Some(q);
    }
    ghost var afterBackfill := log.rows;

    // the profession record, read under `key`
    var regProfesion := ProfessionUnder(key, s);
    ghost var d := Route(accounts, current, q, s.balance, regProfesion, c, entered);
    assert AfterPrepare(s, p, c, entered, key) == Finish(bf.done, q, d, c);
    ghost var routed := Finish([], q, d, c);
    FinishAfterBackfill(bf.done, q, d, c);
    status, quota := RouteAndWrite(log, accounts, current, q, s.balance, regProfesion, c, entered);
    assert log.rows == afterBackfill + routed.writes;
    AppendAssociates(old(log.rows), bf.done, routed.writes);
  }

  /** Regrouping the writes; stated apart so that `NewMovement` need not search for it. */
  lemma AppendAssociates(a: seq<MovementFields>, b: seq<MovementFields>, c: seq<MovementFields>)
    ensures (a + b) + c == a + (b + c)
  {
  }
}
