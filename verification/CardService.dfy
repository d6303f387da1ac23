/** The credit-card service as the source writes it: loaded entities changed in place, then a transaction of
    single writes that is rolled back as a whole at the first one that fails, under an idempotency key and beside two
    read caches. Each operation is proved to be the corresponding step of `Serve` under its key. */
module CardService {
  import opened Common
  import opened ReferenceMonth
  import opened CardEntities
  import opened CardLedger
  import opened CardFrontend
  import Idempotency

  /** A request under a key that has no response yet, once its transaction has committed. */
  lemma Committed(s: State, c: Keyed, out: Effect, s': State)
    requires c.request.Write? && !c.request.req.DeleteCreditCard? && !Idempotency.Known(s, c)
    requires out == Apply(s.data.db, c.request.req, c.request.env) && out.result.Ok?
    requires
      var req, resp := c.request.req, out.result.value;
      s'.data == Tables(out.data, s.data.cardCache - StaleCard(req, resp),
                        s.data.invoiceCache - StaleInvoice(req, resp))
    requires s'.responses
      == if c.key != "" && c.writable && c.key !in s.responses then s.responses[c.key := out.result.value]
        else s.responses
    ensures Idempotency.Answer(s', out.result) == Idempotency.Handle(Serve, s, c)
  {
  }

  class Service {
    var cards: map<string, Card>
    var invoices: map<string, Invoice>
    var txns: map<string, Txn>
    var outbox: seq<Event>
    var cardCache: map<(string, string), CachedCard>
    var invoiceCache: map<(string, string), Invoice>
    var responses: map<string, Response>

    function Db(): Ledger
      reads this
    {
      Ledger(cards, invoices, txns, outbox)
    }

    function Snapshot(): State
      reads this
    {
      Idempotency.Store(Tables(Db(), cardCache, invoiceCache), responses)
    }

    constructor ()
      ensures Snapshot() == EMPTY_STATE
    {
      cards, invoices, txns, outbox := map[], map[], map[], [];
      cardCache, invoiceCache, responses := map[], map[], map[];
    }

    /** The rollback of withTx: every table goes back to what it was at Begin. */
    method Rollback(begin: Ledger)
      modifies this`cards, this`invoices, this`txns, this`outbox
      ensures Db() == begin
    {
      cards, invoices, txns, outbox := begin.cards, begin.invoices, begin.txns, begin.outbox;
    }

    method Remember(c: Keyed, resp: Response)
      modifies this`responses
      ensures responses
        == if c.key != "" && c.writable && c.key !in old(responses) then old(responses)[c.key := resp]
          else old(responses)
    {
      if c.key != "" && c.writable && c.key !in responses { // SETNX
        responses := responses[c.key := resp];
      }
    }

    /** CreateCreditCard without its key; the other operations likewise. */
    method CreateCard(req: Request, env: Env) returns (r: Result<Response, Error>)
      requires req.CreateCreditCard?
      modifies this`cards, this`invoices, this`txns, this`outbox
      ensures Outcome(Db(), r) == ApplyCreateCard(old(Db()), req, env)
    {
      var made := NewCreditCard(req.user, req.name, req.brand, req.cardType, req.lastFour,
                                req.closingDay, req.dueDay, req.limit);
      if made.Err? { return Err(made.error); }
      var card := made.value;
      var begin := Db();
      var failed := env.newId in cards || env.fault == 1;
      if !failed {
        cards := cards[env.newId := card];
        failed := env.fault == 2;
      }
      if !failed {
        outbox := outbox + [CardCreated(env.newId, card.user, card.name, card.brand, card.cardType, card.lastFour,
                                        card.limit)];
        failed := env.fault == 3;
      }
      if failed {
        Rollback(begin);
        return Err(StoreFailure);
      }
      return Ok(CardResponse(env.newId, card));
    }

    method UpdateCard(req: Request, env: Env) returns (r: Result<Response, Error>)
      requires req.UpdateCreditCard?
      modifies this`cards, this`invoices, this`txns, this`outbox
      ensures Outcome(Db(), r) == ApplyUpdateCard(old(Db()), req, env)
    {
      var found := FindCard(Db(), req.id, req.user);
      if found.None? { return Err(NotFound); }
      var card := new CardEntity(found.value);
      var err := card.ApplyUpdate(req.change.(user := req.user));
      if err.Some? { return Err(err.value); }
      var begin := Db();
      var failed := !CardRowAccepted(env, card.row) || env.fault == 1;
      if !failed {
        cards := cards[req.id := card.row];
        failed := env.fault == 2;
      }
      if !failed {
        outbox := outbox + [CardUpdated(req.id, card.row.user, card.row.name, card.row.active,
                                        card.row.available, card.row.limit)];
        failed := env.fault == 3;
      }
      if failed {
        Rollback(begin);
        return Err(StoreFailure);
      }
      return Ok(CardResponse(req.id, card.row));
    }

    method OpenInvoice(req: Request, env: Env) returns (r: Result<Response, Error>)
      requires req.CreateInvoice?
      modifies this`cards, this`invoices, this`txns, this`outbox
      ensures Outcome(Db(), r) == ApplyCreateInvoice(old(Db()), req, env)
    {
      var card := FindCard(Db(), req.card, req.user);
      if card.None? { return Err(NotFound); }
      if !card.value.active { return Err(Validation); }
      var made := NewInvoice(req.card, req.user, req.month, Given(req.closing), Given(req.due));
      if made.Err? { return Err(made.error); }
      var invoice := made.value;
      var begin := Db();
      var failed := env.newId in invoices || env.fault == 1;
      if !failed {
        invoices := invoices[env.newId := invoice];
        failed := env.fault == 2;
      }
      if !failed {
        outbox := outbox + [InvoiceCreated(env.newId, invoice.user, invoice.card, invoice.month, invoice.total,
                                           invoice.closing, invoice.due)];
        failed := env.fault == 3;
      }
      if failed {
        Rollback(begin);
        return Err(StoreFailure);
      }
      return Ok(InvoiceResponse(env.newId, invoice));
    }

    /** The transaction of PayInvoice: the invoice is written before the card is looked up, so an error can come
        with the invoice already changed; the caller rolls back. */
    method PayTx(id: string, invoice: Invoice, user: string, amount: int, env: Env) returns (err: Option<Error>)
      modifies this`cards, this`invoices, this`outbox
      ensures
        var l, found := old(Db()), FindCard(old(Db()), invoice.card, user);
        if env.fault == 1 then err == Some(StoreFailure)
        else if found.None? then err == Some(NotFound)
        else if !CardRowAccepted(env, Restored(found.value, amount)) || Refused(env, 4) then err == Some(StoreFailure)
        else
          && err == None
          && Db() == l.(invoices := l.invoices[id := invoice],
                        cards := l.cards[invoice.card := Restored(found.value, amount)],
                        outbox := l.outbox + [InvoicePaid(id, invoice.user, invoice.card, amount, invoice.paid,
                                                          invoice.total, invoice.status)])
    {
      if env.fault == 1 { return Some(StoreFailure); }
      invoices := invoices[id := invoice];
      var found := FindCard(Db(), invoice.card, user);
      if found.None? { return Some(NotFound); }
      var card := found.value;
      card := card.(available := card.available + amount);
      if card.available > card.limit {
        card := card.(available := card.limit);
      }
      if !CardRowAccepted(env, card) || env.fault == 2 { return Some(StoreFailure); }
      cards := cards[invoice.card := card];
      if env.fault == 3 { return Some(StoreFailure); }
      outbox := outbox + [InvoicePaid(id, invoice.user, invoice.card, amount, invoice.paid, invoice.total,
                                      invoice.status)];
      if env.fault == 4 { return Some(StoreFailure); }
      return None;
    }

    method Pay(req: Request, env: Env) returns (r: Result<Response, Error>)
      requires req.PayInvoice?
      modifies this`cards, this`invoices, this`txns, this`outbox
      ensures Outcome(Db(), r) == ApplyPay(old(Db()), req, env)
    {
      var found := FindInvoice(Db(), req.id, req.user);
      if found.None? { return Err(NotFound); }
      var invoice := new InvoiceEntity(found.value);
      var err := invoice.Pay(req.amount);
      if err.Some? { return Err(err.value); }
      var begin := Db();
      var txErr := PayTx(req.id, invoice.row, req.user, req.amount, env);
      if txErr.Some? {
        Rollback(begin);
        return Err(txErr.value);
      }
      return Ok(InvoiceResponse(req.id, invoice.row));
    }

    /** The rollover of AddTransaction: from the requested invoice to the one that takes the charge. */
    method ChooseTarget(req: Request, env: Env) returns (t: Result<Target, Error>)
      requires req.AddTransaction?
      ensures t == ResolveTarget(Db(), req, env)
    {
      var found := FindInvoice(Db(), req.invoice, req.user);
      if found.None? { return Err(NotFound); }
      var invoice := found.value;
      if invoice.status == Open { return Ok(Target(req.invoice, invoice, false)); }
      var card := FindCard(Db(), invoice.card, req.user);
      if card.None? { return Err(NotFound); }
      var nextMonth := NextReferenceMonth(invoice.month);
      var next := FindByMonth(Db(), invoice.card, nextMonth, env.pick);
      if next.Ok? { return Ok(Target(next.value, invoices[next.value], false)); }
      if next.error != NotFound { return Err(next.error); }
      var closingDate := OnDay(nextMonth, card.value.closingDay);
      var dueDate := OnDay(NextReferenceMonth(nextMonth), card.value.dueDay);
      var made := NewInvoice(invoice.card, req.user, nextMonth, closingDate, dueDate);
      if made.Err? { return Err(made.error); }
      return Ok(Target(env.newInvoiceId, made.value, true));
    }

    /** The transaction of AddTransaction, write by write. */
    method ChargeTx(t: Target, invoice: InvoiceEntity, tx: Txn, user: string, env: Env) returns (err: Option<Error>)
      requires invoice.row == t.invoice && tx.invoice == t.id
      requires !t.isNew ==> t.id in invoices
      modifies this`cards, this`invoices, this`txns, this`outbox, invoice
      ensures
        var l, found := old(Db()), FindCard(old(Db()), t.invoice.card, user);
        if ChargeError(t.invoice, tx.amount).Some? then err == ChargeError(t.invoice, tx.amount)
        else if found.None? then err == Some(NotFound)
        else if found.value.available < tx.amount then err == Some(CreditExceeded)
        else
          var c' := found.value.(available := found.value.available - tx.amount);
          if !ChargeRowsAccepted(l, t, c', env) || Refused(env, 5) then err == Some(StoreFailure)
          else
            && err == None
            && Db() == Ledger(l.cards[t.invoice.card := c'], l.invoices[t.id := Charged(t.invoice, tx.amount)],
                              l.txns[env.newId := tx],
                              l.outbox + [TransactionAdded(env.newId, tx.user, tx.invoice, t.invoice.card,
                                                           tx.description, tx.amount, tx.category, tx.date,
                                                           tx.installments)])
    {
      var chargeErr := invoice.AddTransactionAmount(tx.amount);
      if chargeErr.Some? { return chargeErr; }
      var found := FindCard(Db(), invoice.row.card, user);
      if found.None? { return Some(NotFound); }
      var card := found.value;
      if card.available < tx.amount { return Some(CreditExceeded); }
      card := card.(available := card.available - tx.amount);
      if env.newId in txns || (env.constraints && tx.invoice !in invoices) || env.fault == 1 {
        return Some(StoreFailure);
      }
      txns := txns[env.newId := tx];
      if (t.isNew && t.id in invoices) || env.fault == 2 { return Some(StoreFailure); }
      invoices := invoices[t.id := invoice.row];
      if !CardRowAccepted(env, card) || env.fault == 3 { return Some(StoreFailure); }
      cards := cards[invoice.row.card := card];
      if env.fault == 4 { return Some(StoreFailure); }
      outbox := outbox + [TransactionAdded(env.newId, tx.user, tx.invoice, invoice.row.card, tx.description,
                                           tx.amount, tx.category, tx.date, tx.installments)];
      if env.fault == 5 { return Some(StoreFailure); }
      return None;
    }

    /** From a chosen target to a committed charge, or to an untouched database. */
    method Charge(t: Target, req: Request, env: Env) returns (r: Result<Response, Error>)
      requires req.AddTransaction? && (!t.isNew ==> t.id in invoices)
      modifies this`cards, this`invoices, this`txns, this`outbox
      ensures Outcome(Db(), r) == ChargeTo(old(Db()), t, req, env)
      ensures r.Ok? ==> r.value.TransactionResponse?
    {
      var made := NewInvoiceTransaction(t.id, req.user, req.description, req.amount, req.category, req.date,
                                        req.installments);
      if made.Err? { return Err(made.error); }
      var invoice := new InvoiceEntity(t.invoice);
      var begin := Db();
      var txErr := ChargeTx(t, invoice, made.value, req.user, env);
      if txErr.Some? {
        Rollback(begin);
        return Err(txErr.value);
      }
      return Ok(TransactionResponse(env.newId, made.value));
    }

    method ChargeInvoice(req: Request, env: Env) returns (r: Result<Response, Error>)
      requires req.AddTransaction?
      modifies this`cards, this`invoices, this`txns, this`outbox
      ensures Outcome(Db(), r) == ApplyAddTransaction(old(Db()), req, env)
      ensures r.Ok? ==> r.value.TransactionResponse?
    {
      var target := ChooseTarget(req, env);
      if target.Err? { return Err(target.error); }
      r := Charge(target.value, req, env);
    }

    // -------------------------------------------------------------- with key and caches

    method CreateCreditCard(c: Keyed) returns (r: Result<Response, Error>)
      requires c.request.Write? && c.request.req.CreateCreditCard?
      modifies this
      ensures Idempotency.Answer(Snapshot(), r) == Idempotency.Handle(Serve, old(Snapshot()), c)
    {
      if c.key != "" && c.readable && c.key in responses { return Ok(responses[c.key]); }
      r := CreateCard(c.request.req, c.request.env);
      if r.Err? { return; }
      Remember(c, r.value);
      NothingStale(c.request.req, r.value);
    }

    method UpdateCreditCard(c: Keyed) returns (r: Result<Response, Error>)
      requires c.request.Write? && c.request.req.UpdateCreditCard?
      modifies this
      ensures Idempotency.Answer(Snapshot(), r) == Idempotency.Handle(Serve, old(Snapshot()), c)
    {
      if c.key != "" && c.readable && c.key in responses { return Ok(responses[c.key]); }
      r := UpdateCard(c.request.req, c.request.env);
      if r.Err? { return; }
      Remember(c, r.value);
      cardCache := cardCache - {(c.request.req.user, c.request.req.id)};
      NothingStale(c.request.req, r.value);
    }

    method CreateInvoice(c: Keyed) returns (r: Result<Response, Error>)
      requires c.request.Write? && c.request.req.CreateInvoice?
      modifies this
      ensures Idempotency.Answer(Snapshot(), r) == Idempotency.Handle(Serve, old(Snapshot()), c)
    {
      if c.key != "" && c.readable && c.key in responses { return Ok(responses[c.key]); }
      r := OpenInvoice(c.request.req, c.request.env);
      if r.Err? { return; }
      Remember(c, r.value);
      cardCache := cardCache - {(c.request.req.user, c.request.req.card)};
      NothingStale(c.request.req, r.value);
    }

    method PayInvoice(c: Keyed) returns (r: Result<Response, Error>)
      requires c.request.Write? && c.request.req.PayInvoice?
      modifies this
      ensures Idempotency.Answer(Snapshot(), r) == Idempotency.Handle(Serve, old(Snapshot()), c)
    {
      if c.key != "" && c.readable && c.key in responses { return Ok(responses[c.key]); }
      var req := c.request.req;
      r := Pay(req, c.request.env);
      if r.Err? { return; }
      Remember(c, r.value);
      invoiceCache := invoiceCache - {(req.user, req.id)};
      cardCache := cardCache - {(req.user, r.value.invoice.card)};
    }

    method AddTransaction(c: Keyed) returns (r: Result<Response, Error>)
      requires c.request.Write? && c.request.req.AddTransaction?
      modifies this
      ensures Idempotency.Answer(Snapshot(), r) == Idempotency.Handle(Serve, old(Snapshot()), c)
    {
      if c.key != "" && c.readable && c.key in responses { return Ok(responses[c.key]); }
      r := ChargeInvoice(c.request.req, c.request.env);
      if r.Err? { return; }
      Remember(c, r.value);
      invoiceCache := invoiceCache - {(c.request.req.user, r.value.txn.invoice)};
      NothingStale(c.request.req, r.value);
      Committed(old(Snapshot()), c, Outcome(Db(), r), Snapshot());
    }

    /** Requests of the other kinds delete nothing from a cache. */
    lemma NothingStale(req: Request, resp: Response)
      ensures StaleCard(req, resp) == {} ==> cardCache - StaleCard(req, resp) == cardCache
      ensures StaleInvoice(req, resp) == {} ==> invoiceCache - StaleInvoice(req, resp) == invoiceCache
    {
    }

    /** Deletes take no key; the cache entry goes first. */
    method DeleteCreditCard(req: Request, env: Env) returns (r: Result<Response, Error>)
      requires req.DeleteCreditCard?
      modifies this
      ensures
        Idempotency.Answer(Snapshot(), r)
        == Idempotency.Handle(Serve, old(Snapshot()), Idempotency.Keyed("", Write(req, env), true, true))
    {
      cardCache := cardCache - {(req.user, req.id)};
      var begin := Db();
      var failed := env.fault == 1;
      if !failed {
        if req.id in cards && cards[req.id].user == req.user && !cards[req.id].deleted {
          cards := cards[req.id := cards[req.id].(deleted := true)];
        }
        failed := env.fault == 2;
      }
      if !failed {
        outbox := outbox + [CardDeleted(req.id, req.user)];
        failed := env.fault == 3;
      }
      if failed {
        Rollback(begin);
        return Err(StoreFailure);
      }
      NothingStale(req, NoContent);
      return Ok(NoContent);
    }

    method GetCreditCard(id: string, user: string) returns (r: Result<Response, Error>)
      modifies this`cardCache
      ensures
        Idempotency.Answer(Snapshot(), r)
        == Idempotency.Handle(Serve, old(Snapshot()), Idempotency.Keyed("", Action.GetCreditCard(id, user), true, true))
    {
      if (user, id) in cardCache { return Ok(CardResponse(id, cardCache[(user, id)].card)); }
      var found := FindCard(Db(), id, user);
      if found.None? { return Err(NotFound); }
      cardCache := cardCache[(user, id) := CachedCard(found.value, |outbox|)];
      return Ok(CardResponse(id, found.value));
    }

    method GetInvoice(id: string, user: string) returns (r: Result<Response, Error>)
      modifies this`invoiceCache
      ensures
        Idempotency.Answer(Snapshot(), r)
        == Idempotency.Handle(Serve, old(Snapshot()), Idempotency.Keyed("", Action.GetInvoice(id, user), true, true))
    {
      if (user, id) in invoiceCache { return Ok(InvoiceResponse(id, invoiceCache[(user, id)])); }
      var found := FindInvoice(Db(), id, user);
      if found.None? { return Err(NotFound); }
      invoiceCache := invoiceCache[(user, id) := found.value];
      return Ok(InvoiceResponse(id, found.value));
    }
  }
}
