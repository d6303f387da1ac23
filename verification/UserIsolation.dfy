/** Which user's rows a request can be answered with: reads of cards, invoices, investments and portfolios only ever
    with the asking user's own, reads of debts and repeated idempotency keys with another user's in exactly the cases
    below. */
module UserIsolation {
  import opened Common
  import Idempotency
  import CardLedger
  import CardConservation
  import CardFrontend
  import CardCache
  import DebtEntities
  import DebtLedger
  import DebtService
  import Investment
  import InvestmentService
  import InvestmentCache

  // ---------------------------------------------------------------- whose row a response shows

  predicate CardOwn(resp: CardLedger.Response, user: string) {
    match resp
    case CardResponse(_, card) => card.user == user
    case InvoiceResponse(_, invoice) => invoice.user == user
    case TransactionResponse(_, txn) => txn.user == user
    case NoContent => true
  }

  predicate DebtOwn(resp: DebtLedger.Response, user: string) {
    match resp
    case DebtResponse(_, debt) => debt.user == user
    case PaymentResponse(_, payment) => payment.user == user
    case NoContent => true
  }

  predicate InvestmentOwn(resp: InvestmentService.Response, user: string) {
    match resp
    case InvestmentResponse(_, holding) => holding.user == user
    case TransactionResponse(_, tx) => tx.user == user
    case PortfolioResponse(holdings) => forall i :: i in holdings ==> holdings[i].user == user
    case NoContent => true
  }

  // ---------------------------------------------------------------- reads

  /** After any history a read of a card or an invoice, from the cache or not, shows the asking user's row. */
  lemma CardReadsOwn(steps: seq<CardFrontend.Step>, id: string, user: string)
    ensures
      var t := Idempotency.Run(CardFrontend.Serve, CardFrontend.EMPTY_STATE, steps).data;
      var card, invoice := CardFrontend.ReadCard(t, id, user).result, CardFrontend.ReadInvoice(t, id, user).result;
      (card.Ok? ==> CardOwn(card.value, user)) && (invoice.Ok? ==> CardOwn(invoice.value, user))
  {
    var t := Idempotency.Run(CardFrontend.Serve, CardFrontend.EMPTY_STATE, steps).data;
    assert CardConservation.Inv(CardFrontend.EMPTY_STATE.data.db);
    CardCache.CachesStayOk(CardFrontend.EMPTY_STATE, steps, false);
    if (user, id) in t.cardCache { assert CardCache.CardEntryOk(t.db, (user, id), t.cardCache[(user, id)]); }
    if (user, id) in t.invoiceCache {
      assert CardCache.InvoiceEntryOk(t.db, (user, id), t.invoiceCache[(user, id)], false);
    }
  }

  /** The same for investments and portfolios, whose cached rows may be stale but never another user's. */
  lemma InvestmentReadsOwn(steps: seq<Idempotency.Step<InvestmentService.Action>>, id: string, user: string)
    ensures
      var t := Idempotency.Run(InvestmentService.Serve, InvestmentService.EMPTY_STATE, steps).data;
      var one := InvestmentService.ReadInvestment(t, id, user).result;
      var all := InvestmentService.ReadPortfolio(t, user).result;
      (one.Ok? ==> InvestmentOwn(one.value, user)) && (all.Ok? ==> InvestmentOwn(all.value, user))
  {
    var t := Idempotency.Run(InvestmentService.Serve, InvestmentService.EMPTY_STATE, steps).data;
    InvestmentCache.CachesStayOk(steps);
    if (user, id) in t.holdings { assert InvestmentCache.HoldingEntryOk(t.db, (user, id), t.holdings[(user, id)]); }
    PortfolioOwn(t, user);
  }

  lemma PortfolioOwn(t: InvestmentService.Tables, user: string)
    requires InvestmentCache.CachesOk(t)
    ensures InvestmentOwn(InvestmentService.ReadPortfolio(t, user).result.value, user)
  {
    if user in t.portfolios {
      var entry := t.portfolios[user];
      assert InvestmentCache.PortfolioEntryOk(t.db, user, entry);
      forall i | i in entry.value ensures entry.value[i].user == user {
        assert InvestmentCache.CachedRowOk(t.db, user, entry, i);
      }
    }
  }

  /** A debt is cached under its id alone: after any history a read is answered with another user's debt exactly when
      the debt is cached and its owner is another. */
  lemma DebtReadExactly(steps: seq<Idempotency.Step<DebtService.Action>>, id: string, user: string)
    ensures
      var t := Idempotency.Run(DebtService.Serve, DebtService.EMPTY_STATE, steps).data;
      var r := DebtService.ReadDebt(t, id, user).result;
      r.Ok? && !DebtOwn(r.value, user) <==> id in t.cache && id in t.db.debts && t.db.debts[id].user != user
  {
    var t := Idempotency.Run(DebtService.Serve, DebtService.EMPTY_STATE, steps).data;
    if id in t.cache { DebtService.CachedDebtIsCurrent(steps, id); }
  }

  /** One user creates a debt and reads it, another user then reads it under its id. */
  lemma DebtReadExample(env: DebtLedger.Env)
    requires env.fault == 0
    ensures
      var loan := DebtLedger.CreateDebt("u", "n", "", "other", 100, 0, "2024-01-01", "", DebtEntities.Active, "");
      var t1 := DebtService.Serve(DebtService.EMPTY_STATE.data, DebtService.Write(loan, env)).data;
      var t2 := DebtService.Serve(t1, DebtService.GetDebt(env.newId, "u")).data;
      var r := DebtService.Serve(t2, DebtService.GetDebt(env.newId, "v")).result;
      r.Ok? && r.value.DebtResponse? && r.value.debt.user == "u"
      && DebtService.Serve(t1, DebtService.GetDebt(env.newId, "v")).result == Err(DebtEntities.NotFound)
  {
    var loan := DebtLedger.CreateDebt("u", "n", "", "other", 100, 0, "2024-01-01", "", DebtEntities.Active, "");
    var t1 := DebtService.Serve(DebtService.EMPTY_STATE.data, DebtService.Write(loan, env)).data;
    assert env.newId in t1.db.debts && t1.db.debts[env.newId].user == "u";
    assert t1.cache == map[];
  }

  // ---------------------------------------------------------------- requests that reach the service

  lemma CardWriteOwn(l: CardLedger.Ledger, req: CardLedger.Request, env: CardLedger.Env)
    requires CardLedger.Apply(l, req, env).result.Ok?
    ensures CardOwn(CardLedger.Apply(l, req, env).result.value, req.user)
  {
    match req
    case AddTransaction(_, _, _, _, _, _, _) => ChargeOwn(l, CardLedger.ResolveTarget(l, req, env).value, req, env);
    case _ =>
  }

  lemma ChargeOwn(l: CardLedger.Ledger, t: CardLedger.Target, req: CardLedger.Request, env: CardLedger.Env)
    requires req.AddTransaction? && CardLedger.ChargeTo(l, t, req, env).result.Ok?
    ensures CardOwn(CardLedger.ChargeTo(l, t, req, env).result.value, req.user)
  {
  }

  lemma DebtWriteOwn(l: DebtLedger.Ledger, req: DebtLedger.Request, env: DebtLedger.Env)
    requires DebtLedger.Apply(l, req, env).result.Ok?
    ensures DebtOwn(DebtLedger.Apply(l, req, env).result.value, req.user)
  {
  }

  lemma InvestmentWriteOwn(l: InvestmentService.Ledger, req: InvestmentService.Request, env: InvestmentService.Env)
    requires InvestmentService.Apply(l, req, env).result.Ok?
    ensures InvestmentOwn(InvestmentService.Apply(l, req, env).result.value, req.user)
  {
  }

  // ---------------------------------------------------------------- keys

  /** Idempotency keys carry no user: a write is answered with another user's row exactly when its key is known and the
      response stored under it is another user's. */
  lemma CardKeyExactly(s: CardFrontend.State, key: string, req: CardLedger.Request, env: CardLedger.Env, readable: bool,
                       writable: bool)
    ensures
      var c := Idempotency.Keyed(key, CardFrontend.Write(req, env), readable, writable);
      var r := Idempotency.Handle(CardFrontend.Serve, s, c).result;
      r.Ok? && !CardOwn(r.value, req.user) <==>
        key != "" && readable && key in s.responses && !CardOwn(s.responses[key], req.user)
  {
    if CardLedger.Apply(s.data.db, req, env).result.Ok? { CardWriteOwn(s.data.db, req, env); }
  }

  lemma DebtKeyExactly(s: DebtService.State, key: string, req: DebtLedger.Request, env: DebtLedger.Env, readable: bool,
                       writable: bool)
    ensures
      var c := Idempotency.Keyed(key, DebtService.Write(req, env), readable, writable);
      var r := Idempotency.Handle(DebtService.Serve, s, c).result;
      r.Ok? && !DebtOwn(r.value, req.user) <==>
        key != "" && readable && key in s.responses && !DebtOwn(s.responses[key], req.user)
  {
    if DebtLedger.Apply(s.data.db, req, env).result.Ok? { DebtWriteOwn(s.data.db, req, env); }
  }

  lemma InvestmentKeyExactly(s: InvestmentService.State, key: string, req: InvestmentService.Request,
                             env: InvestmentService.Env, readable: bool, writable: bool)
    ensures
      var c := Idempotency.Keyed(key, InvestmentService.Write(req, env), readable, writable);
      var r := Idempotency.Handle(InvestmentService.Serve, s, c).result;
      r.Ok? && !InvestmentOwn(r.value, req.user) <==>
        key != "" && readable && key in s.responses && !InvestmentOwn(s.responses[key], req.user)
  {
    if InvestmentService.Apply(s.data.db, req, env).result.Ok? { InvestmentWriteOwn(s.data.db, req, env); }
  }

  /** Two users create an investment under one key: the second is shown the first one's. */
  lemma SharedKeyExample(env: InvestmentService.Env)
    requires env.fault == 0
    ensures
      var one := InvestmentService.CreateInvestment("u", "n", "T", "stock", 3, 10, "", Investment.Active);
      var two := InvestmentService.CreateInvestment("v", "n", "T", "stock", 3, 10, "", Investment.Active);
      var s := Idempotency.Handle(InvestmentService.Serve, InvestmentService.EMPTY_STATE,
                                  Idempotency.Keyed("k", InvestmentService.Write(one, env), true, true)).store;
      var r := Idempotency.Handle(InvestmentService.Serve, s,
                                  Idempotency.Keyed("k", InvestmentService.Write(two, env), true, true)).result;
      r.Ok? && r.value.InvestmentResponse? && r.value.holding.user == "u"
  {
  }
}
