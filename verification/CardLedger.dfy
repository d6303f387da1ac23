/** The credit-card service as a step function on its database: every write request is one atomic
    transaction that commits wholly or not at all. Calls are serial. */
module CardLedger {
  import opened Common
  import opened ReferenceMonth
  import opened CardEntities

  /** Outbox events with the payload each carries. */
  datatype Event =
    | CardCreated(id: string, user: string, name: string, brand: string, cardType: string, lastFour: string, limit: int)
    | CardUpdated(id: string, user: string, name: string, active: bool, available: int, limit: int)
    | CardDeleted(id: string, user: string)
    | InvoiceCreated(id: string, user: string, card: string, month: string, total: int, closing: DateText,
                     due: DateText)
    | InvoicePaid(id: string, user: string, card: string, amount: int, paid: int, total: int, status: Status)
    | TransactionAdded(id: string, user: string, invoice: string, card: string, description: string, amount: int,
                       category: string, date: string, installments: int)

  datatype Ledger = Ledger(
    cards: map<string, Card>, invoices: map<string, Invoice>, txns: map<string, Txn>, outbox: seq<Event>)

  const EMPTY_LEDGER := Ledger(map[], map[], map[], [])

  datatype Request =
    | CreateCreditCard(user: string, name: string, brand: string, cardType: string, lastFour: string,
                       closingDay: int, dueDay: int, limit: int)
    | UpdateCreditCard(id: string, user: string, change: CardUpdate)
    | DeleteCreditCard(id: string, user: string)
    | CreateInvoice(card: string, user: string, month: string, closing: string, due: string)
    | PayInvoice(id: string, user: string, amount: int)
    | AddTransaction(invoice: string, user: string, description: string, amount: int,
                     category: string, date: string, installments: int)

  /** What a call takes from outside: generated ids, the row the month query yields, which write (if any) the
      database refuses, and whether the migrations' constraints are enforced. `fault == k` refuses the k-th write of the
      transaction, the commit counting as the last. */
  datatype Env = Env(newId: string, newInvoiceId: string, pick: string, fault: nat, constraints: bool)

  datatype Response =
    | CardResponse(id: string, card: Card)
    | InvoiceResponse(id: string, invoice: Invoice)
    | TransactionResponse(id: string, txn: Txn)
    | NoContent

  type Effect = Outcome<Ledger, Response, Error>

  // ---------------------------------------------------------------- repositories

  function FindCard(l: Ledger, id: string, user: string): Option<Card> {
    if id in l.cards && l.cards[id].user == user && !l.cards[id].deleted then Some(l.cards[id]) else None
  }

  function FindInvoice(l: Ledger, id: string, user: string): Option<Invoice> {
    if id in l.invoices && l.invoices[id].user == user then Some(l.invoices[id]) else None
  }

  predicate MonthMatch(l: Ledger, id: string, card: string, month: string) {
    id in l.invoices && l.invoices[id].card == card && l.invoices[id].month == month
  }

  /** FindByMonth has no ordering and no uniqueness to rely on: the store yields one matching row, its choice
      being `pick`; a pick that matches nothing stands for a failed query unless no row matches at all. */
  function FindByMonth(l: Ledger, card: string, month: string, pick: string): (r: Result<string, Error>)
    ensures r.Ok? ==> MonthMatch(l, r.value, card, month)
    ensures r == Err(NotFound) <==> forall i :: i in l.invoices ==> !MonthMatch(l, i, card, month)
  {
    if MonthMatch(l, pick, card, month) then Ok(pick)
    else if exists i :: i in l.invoices && MonthMatch(l, i, card, month) then Err(StoreFailure)
    else Err(NotFound)
  }

  predicate Refused(env: Env, writes: nat) {
    1 <= env.fault <= writes
  }

  /** CHECK (available_credit >= 0) on credit_cards. */
  predicate CardRowAccepted(env: Env, c: Card) {
    env.constraints ==> c.available >= 0
  }

  // ---------------------------------------------------------------- the operations

  function Fail(l: Ledger, e: Error): Effect {
    Outcome(l, Err(e))
  }

  function ApplyCreateCard(l: Ledger, req: Request, env: Env): Effect
    requires req.CreateCreditCard?
  {
    match NewCreditCard(req.user, req.name, req.brand, req.cardType, req.lastFour, req.closingDay, req.dueDay,
                        req.limit)
    case Err(e) => Fail(l, e)
    case Ok(c) =>
      if env.newId in l.cards || Refused(env, 3) then Fail(l, StoreFailure)
      else
        Outcome(l.(cards := l.cards[env.newId := c],
                   outbox := l.outbox + [CardCreated(env.newId, c.user, c.name, c.brand, c.cardType, c.lastFour,
                                                     c.limit)]),
                Ok(CardResponse(env.newId, c)))
  }

  function ApplyUpdateCard(l: Ledger, req: Request, env: Env): Effect
    requires req.UpdateCreditCard?
  {
    match FindCard(l, req.id, req.user)
    case None => Fail(l, NotFound)
    case Some(c) =>
      var change := req.change.(user := req.user);
      if UpdateError(c, change).Some? then Fail(l, UpdateError(c, change).value)
      else
        var c' := Updated(c, change);
        if !CardRowAccepted(env, c') || Refused(env, 3) then Fail(l, StoreFailure)
        else
          Outcome(l.(cards := l.cards[req.id := c'],
                     outbox := l.outbox + [CardUpdated(req.id, c'.user, c'.name, c'.active, c'.available, c'.limit)]),
                  Ok(CardResponse(req.id, c')))
  }

  /** The delete touches a row only if it is live and the user's; the event is written either way. */
  function ApplyDeleteCard(l: Ledger, req: Request, env: Env): Effect
    requires req.DeleteCreditCard?
  {
    if Refused(env, 3) then Fail(l, StoreFailure)
    else
      var cards := match FindCard(l, req.id, req.user)
                   case None => l.cards
                   case Some(c) => l.cards[req.id := c.(deleted := true)];
      Outcome(l.(cards := cards, outbox := l.outbox + [CardDeleted(req.id, req.user)]), Ok(NoContent))
  }

  function ApplyCreateInvoice(l: Ledger, req: Request, env: Env): Effect
    requires req.CreateInvoice?
  {
    match FindCard(l, req.card, req.user)
    case None => Fail(l, NotFound)
    case Some(c) =>
      if !c.active then Fail(l, Validation)
      else match NewInvoice(req.card, req.user, req.month, Given(req.closing), Given(req.due))
        case Err(e) => Fail(l, e)
        case Ok(inv) =>
          if env.newId in l.invoices || Refused(env, 3) then Fail(l, StoreFailure)
          else
            Outcome(l.(invoices := l.invoices[env.newId := inv],
                       outbox := l.outbox + [InvoiceCreated(env.newId, inv.user, inv.card, inv.month, inv.total,
                                                            inv.closing, inv.due)]),
                    Ok(InvoiceResponse(env.newId, inv)))
  }

  /** Available credit after a payment, capped at the limit. */
  function Restored(c: Card, amount: int): Card {
    c.(available := if c.available + amount > c.limit then c.limit else c.available + amount)
  }

  function ApplyPay(l: Ledger, req: Request, env: Env): Effect
    requires req.PayInvoice?
  {
    match FindInvoice(l, req.id, req.user)
    case None => Fail(l, NotFound)
    case Some(inv) =>
      if PayError(inv, req.amount).Some? then Fail(l, PayError(inv, req.amount).value)
      else if env.fault == 1 then Fail(l, StoreFailure)
      else match FindCard(l, inv.card, req.user)
        case None => Fail(l, NotFound)
        case Some(c) =>
          var inv', c' := PaidDown(inv, req.amount), Restored(c, req.amount);
          if !CardRowAccepted(env, c') || Refused(env, 4) then Fail(l, StoreFailure)
          else
            Outcome(l.(invoices := l.invoices[req.id := inv'], cards := l.cards[inv.card := c'],
                       outbox := l.outbox + [InvoicePaid(req.id, inv'.user, inv'.card, req.amount, inv'.paid,
                                                         inv'.total, inv'.status)]),
                    Ok(InvoiceResponse(req.id, inv')))
  }

  /** Where a charge goes: the invoice, its id, and whether it has to be created. */
  datatype Target = Target(id: string, invoice: Invoice, isNew: bool)

  /** The requested invoice if it is open; otherwise the card's invoice of the next month, new if missing. */
  function ResolveTarget(l: Ledger, req: Request, env: Env): Result<Target, Error>
    requires req.AddTransaction?
  {
    match FindInvoice(l, req.invoice, req.user)
    case None => Err(NotFound)
    case Some(inv) =>
      if inv.status == Open then Ok(Target(req.invoice, inv, false))
      else match FindCard(l, inv.card, req.user)
        case None => Err(NotFound)
        case Some(c) =>
          var next := NextReferenceMonth(inv.month);
          match FindByMonth(l, inv.card, next, env.pick)
          case Ok(id) => Ok(Target(id, l.invoices[id], false))
          case Err(NotFound) =>
            (match NewInvoice(inv.card, req.user, next, OnDay(next, c.closingDay),
                              OnDay(NextReferenceMonth(next), c.dueDay))
             case Err(e) => Err(e)
             case Ok(blank) => Ok(Target(env.newInvoiceId, blank, true)))
          case Err(e) => Err(e)
  }

  /** Primary keys and CHECKs on the rows a charge writes, and the foreign key from invoice_transactions to invoices:
      the transaction row is inserted first, so the invoice it names has to be there already. */
  predicate ChargeRowsAccepted(l: Ledger, t: Target, c: Card, env: Env) {
    && env.newId !in l.txns
    && (env.constraints ==> t.id in l.invoices)
    && (t.isNew ==> t.id !in l.invoices)
    && CardRowAccepted(env, c)
  }

  /** The charge on a chosen target. */
  function ChargeTo(l: Ledger, t: Target, req: Request, env: Env): Effect
    requires req.AddTransaction?
  {
    match NewInvoiceTransaction(t.id, req.user, req.description, req.amount, req.category, req.date, req.installments)
    case Err(e) => Fail(l, e)
    case Ok(tx) =>
      if ChargeError(t.invoice, req.amount).Some? then Fail(l, ChargeError(t.invoice, req.amount).value)
      else match FindCard(l, t.invoice.card, req.user)
        case None => Fail(l, NotFound)
        case Some(c) =>
          if c.available < req.amount then Fail(l, CreditExceeded)
          else
            var inv', c' := Charged(t.invoice, req.amount), c.(available := c.available - req.amount);
            if !ChargeRowsAccepted(l, t, c', env) || Refused(env, 5) then Fail(l, StoreFailure)
            else
              Outcome(Ledger(l.cards[inv'.card := c'], l.invoices[t.id := inv'], l.txns[env.newId := tx],
                             l.outbox + [TransactionAdded(env.newId, tx.user, tx.invoice, inv'.card, tx.description,
                                                          tx.amount, tx.category, tx.date, tx.installments)]),
                      Ok(TransactionResponse(env.newId, tx)))
  }

  function ApplyAddTransaction(l: Ledger, req: Request, env: Env): Effect
    requires req.AddTransaction?
  {
    match ResolveTarget(l, req, env)
    case Err(e) => Fail(l, e)
    case Ok(t) => ChargeTo(l, t, req, env)
  }

  /** One request against the database, ignoring idempotency keys and caches. */
  function Apply(l: Ledger, req: Request, env: Env): Effect {
    match req
    case CreateCreditCard(_, _, _, _, _, _, _, _) => ApplyCreateCard(l, req, env)
    case UpdateCreditCard(_, _, _) => ApplyUpdateCard(l, req, env)
    case DeleteCreditCard(_, _) => ApplyDeleteCard(l, req, env)
    case CreateInvoice(_, _, _, _, _) => ApplyCreateInvoice(l, req, env)
    case PayInvoice(_, _, _) => ApplyPay(l, req, env)
    case AddTransaction(_, _, _, _, _, _, _) => ApplyAddTransaction(l, req, env)
  }

  /** A status move made outside the service, by whoever closes invoices or marks them overdue. */
  function ApplyTransition(l: Ledger, id: string, to: Status): Ledger {
    if id in l.invoices && TransitionAllowed(l.invoices[id].status, to)
    then l.(invoices := l.invoices[id := l.invoices[id].(status := to)])
    else l
  }

  // ---------------------------------------------------------------- runs

  datatype Move = Call(req: Request, env: Env) | Transition(id: string, to: Status)

  function Next(l: Ledger, m: Move): Ledger {
    match m
    case Call(req, env) => Apply(l, req, env).data
    case Transition(id, to) => ApplyTransition(l, id, to)
  }

  function Run(l: Ledger, moves: seq<Move>): Ledger
    decreases |moves|
  {
    if moves == [] then l else Run(Next(l, moves[0]), moves[1..])
  }
}
