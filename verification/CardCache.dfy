/** How far the read caches can be trusted. */
module CardCache {
  import opened Common
  import opened CardEntities
  import opened CardLedger
  import opened CardConservation
  import opened CardFrontend
  import opened CardRetry
  import Idempotency

  /** The charges on a card among some events. */
  function Charges(card: string, events: seq<Event>): int {
    if events == [] then 0
    else
      var e := events[|events| - 1];
      Charges(card, events[..|events| - 1]) + (if e.TransactionAdded? && e.card == card then e.amount else 0)
  }

  lemma ChargesSnoc(card: string, events: seq<Event>, stamp: nat, e: Event)
    requires stamp <= |events|
    ensures Charges(card, (events + [e])[stamp..])
      == Charges(card, events[stamp..]) + (if e.TransactionAdded? && e.card == card then e.amount else 0)
  {
    assert (events + [e])[stamp..] == events[stamp..] + [e];
    assert (events[stamp..] + [e])[..|events[stamp..]|] == events[stamp..];
  }

  /** A cached card is live and right in everything but its available credit, which it overstates by exactly the
      charges committed since it was cached. */
  predicate CardEntryOk(db: Ledger, k: (string, string), entry: CachedCard) {
    && k.1 in db.cards
    && db.cards[k.1].user == k.0 && !db.cards[k.1].deleted
    && entry.card == db.cards[k.1].(available := entry.card.available)
    && entry.stamp <= |db.outbox|
    && entry.card.available == db.cards[k.1].available + Charges(k.1, db.outbox[entry.stamp..])
  }

  /** A cached invoice is the stored one, or unless `exact` up to its status, which outside moves change behind
      the cache. */
  predicate InvoiceEntryOk(db: Ledger, k: (string, string), entry: Invoice, exact: bool) {
    && k.1 in db.invoices && db.invoices[k.1].user == k.0
    && entry == (if exact then db.invoices[k.1] else db.invoices[k.1].(status := entry.status))
  }

  predicate CachesOk(t: Tables, exact: bool) {
    && (forall k :: k in t.cardCache ==> CardEntryOk(t.db, k, t.cardCache[k]))
    && (forall k :: k in t.invoiceCache ==> InvoiceEntryOk(t.db, k, t.invoiceCache[k], exact))
  }

  /** Entries survive a committed request that leaves their row alone, up to a charge. */
  lemma CardEntrySurvives(db: Ledger, db': Ledger, k: (string, string), entry: CachedCard, e: Event)
    requires CardEntryOk(db, k, entry)
    requires db'.outbox == db.outbox + [e]
    requires k.1 in db'.cards
    requires db'.cards[k.1] == db.cards[k.1].(available := db.cards[k.1].available
                               - (if e.TransactionAdded? && e.card == k.1 then e.amount else 0))
    ensures CardEntryOk(db', k, entry)
  {
    ChargesSnoc(k.1, db.outbox, entry.stamp, e);
  }

  /** What a committed request did to a live card, as far as its cached copy is concerned. */
  predicate CardTold(l: Ledger, req: Request, out: Effect, c: string)
    requires c in l.cards
  {
    && out.result.Ok? && |out.data.outbox| == |l.outbox| + 1
    && var e := out.data.outbox[|l.outbox|];
    && out.data.outbox == l.outbox + [e]
    && c in out.data.cards
    && ((l.cards[c].user, c) !in StaleCard(req, out.result.value)
        && !(req.DeleteCreditCard? && req.id == c && req.user == l.cards[c].user) ==>
          out.data.cards[c] == l.cards[c].(available := l.cards[c].available
                                   - (if e.TransactionAdded? && e.card == c then e.amount else 0)))
  }

  lemma ChargeTold(l: Ledger, t: Target, req: Request, env: Env, c: string)
    requires req.AddTransaction? && ChargeTo(l, t, req, env).result.Ok? && c in l.cards
    ensures CardTold(l, req, ChargeTo(l, t, req, env), c)
  {
  }

  lemma PayTold(l: Ledger, req: Request, env: Env, c: string)
    requires req.PayInvoice? && ApplyPay(l, req, env).result.Ok? && c in l.cards
    ensures CardTold(l, req, ApplyPay(l, req, env), c)
  {
  }

  lemma UpdateTold(l: Ledger, req: Request, env: Env, c: string)
    requires req.UpdateCreditCard? && ApplyUpdateCard(l, req, env).result.Ok? && c in l.cards
    ensures CardTold(l, req, ApplyUpdateCard(l, req, env), c)
  {
  }

  lemma CommitShape(l: Ledger, req: Request, env: Env, c: string)
    requires Apply(l, req, env).result.Ok? && c in l.cards && !l.cards[c].deleted
    ensures CardTold(l, req, Apply(l, req, env), c)
  {
    match req
    case PayInvoice(_, _, _) => PayTold(l, req, env, c);
    case AddTransaction(_, _, _, _, _, _, _) => ChargeTold(l, ResolveTarget(l, req, env).value, req, env, c);
    case UpdateCreditCard(_, _, _) => UpdateTold(l, req, env, c);
    case CreateInvoice(_, _, _, _, _) =>
    case DeleteCreditCard(_, _) =>
    case CreateCreditCard(_, _, _, _, _, _, _, _) =>
  }

  lemma CommitInvoices(l: Ledger, req: Request, env: Env, i: string)
    requires Inv(l) && Apply(l, req, env).result.Ok? && i in l.invoices
    requires (l.invoices[i].user, i) !in StaleInvoice(req, Apply(l, req, env).result.value)
    ensures i in Apply(l, req, env).data.invoices && Apply(l, req, env).data.invoices[i] == l.invoices[i]
  {
    if req.AddTransaction? { TargetShape(l, req, env); }
  }

  lemma WriteKeepsCaches(t: Tables, req: Request, env: Env, exact: bool)
    requires Inv(t.db) && CachesOk(t, exact)
    ensures CachesOk(ServeWrite(t, req, env).data, exact)
  {
    var t', out := ServeWrite(t, req, env).data, Apply(t.db, req, env);
    if out.result.Ok? {
      forall k | k in t'.cardCache ensures CardEntryOk(t'.db, k, t'.cardCache[k]) {
        assert CardEntryOk(t.db, k, t.cardCache[k]);
        CommitShape(t.db, req, env, k.1);
        CardEntrySurvives(t.db, t'.db, k, t.cardCache[k], out.data.outbox[|t.db.outbox|]);
      }
      forall k | k in t'.invoiceCache ensures InvoiceEntryOk(t'.db, k, t'.invoiceCache[k], exact) {
        assert InvoiceEntryOk(t.db, k, t.invoiceCache[k], exact);
        CommitInvoices(t.db, req, env, k.1);
      }
    }
  }

  lemma ReadCardKeepsCaches(t: Tables, id: string, user: string, exact: bool)
    requires CachesOk(t, exact)
    ensures ReadCard(t, id, user).data.db == t.db && CachesOk(ReadCard(t, id, user).data, exact)
  {
    var t' := ReadCard(t, id, user).data;
    assert Charges(id, t.db.outbox[|t.db.outbox|..]) == 0;
    forall k | k in t'.cardCache ensures CardEntryOk(t'.db, k, t'.cardCache[k]) {
      if k in t.cardCache { assert CardEntryOk(t.db, k, t.cardCache[k]); }
    }
  }

  lemma OutsideKeepsCaches(t: Tables, id: string, to: Status)
    requires CachesOk(t, false)
    ensures CachesOk(t.(db := ApplyTransition(t.db, id, to)), false)
  {
    var db := ApplyTransition(t.db, id, to);
    forall k | k in t.cardCache ensures CardEntryOk(db, k, t.cardCache[k]) {
      assert CardEntryOk(t.db, k, t.cardCache[k]);
    }
    forall k | k in t.invoiceCache ensures InvoiceEntryOk(db, k, t.invoiceCache[k], false) {
      assert InvoiceEntryOk(t.db, k, t.invoiceCache[k], false);
    }
  }

  lemma ServeKeepsCaches(t: Tables, a: Action, exact: bool)
    requires Inv(t.db) && CachesOk(t, exact)
    requires exact ==> !a.Outside?
    ensures CachesOk(Serve(t, a).data, exact)
  {
    match a
    case Write(req, env) => WriteKeepsCaches(t, req, env, exact);
    case Outside(id, to) => OutsideKeepsCaches(t, id, to);
    case GetCreditCard(id, user) => ReadCardKeepsCaches(t, id, user, exact);
    case _ =>
  }

  lemma ServeKeepsInv(t: Tables, a: Action)
    requires Inv(t.db)
    ensures Inv(Serve(t, a).data.db)
  {
    ServeDatabase(t, a);
    if a.Write? { NextKeeps(t.db, Call(a.req, a.env)); }
    if a.Outside? { NextKeeps(t.db, Transition(a.id, a.to)); }
  }

  lemma {:induction false} PlainKeepsCaches(t: Tables, actions: seq<Action>, exact: bool)
    requires Inv(t.db) && CachesOk(t, exact)
    requires exact ==> forall a :: a in actions ==> !a.Outside?
    ensures CachesOk(Idempotency.RunPlain(Serve, t, actions), exact)
    decreases |actions|
  {
    if actions != [] {
      ServeKeepsInv(t, actions[0]);
      ServeKeepsCaches(t, actions[0], exact);
      PlainKeepsCaches(Serve(t, actions[0]).data, actions[1..], exact);
    }
  }

  predicate Inside(a: Action) {
    !a.Outside?
  }

  /** In every serial history with successful cache deletes: a cached invoice equals the stored one (up to the
      status if the status is also moved outside the service), and a cached card equals the stored one except
      that its available credit is too high by exactly the charges posted since it was cached. */
  lemma CachesStayOk(s: State, steps: seq<Step>, exact: bool)
    requires Inv(s.data.db) && CachesOk(s.data, exact)
    requires exact ==> forall k :: 0 <= k < |steps| && steps[k].Call? ==> Inside(steps[k].call.request)
    ensures CachesOk(Idempotency.Run(Serve, s, steps).data, exact)
  {
    Idempotency.HistoryIsPlain(Serve, s, steps);
    if exact { Idempotency.ServedAll(Serve, s, steps, Inside); }
    PlainKeepsCaches(s.data, Idempotency.Served(Serve, s, steps), exact);
  }

  // ---------------------------------------------------------------- what is dropped, and what a read answers

  /** A cached card survives a write untouched unless the write is a delete of it, or a successful update of it, a new
      invoice on it or a payment on one of its invoices; a charge does not drop it. */
  lemma CardDropsExactly(t: Tables, req: Request, env: Env, k: (string, string))
    requires k in t.cardCache
    ensures
      var out := ServeWrite(t, req, env);
      && (k !in out.data.cardCache <==>
            || (req.DeleteCreditCard? && k == (req.user, req.id))
            || (out.result.Ok? && req.UpdateCreditCard? && k == (req.user, req.id))
            || (out.result.Ok? && req.CreateInvoice? && k == (req.user, req.card))
            || (out.result.Ok? && req.PayInvoice? && req.id in t.db.invoices
                && k == (req.user, t.db.invoices[req.id].card)))
      && (k in out.data.cardCache ==> out.data.cardCache[k] == t.cardCache[k])
  {
    match req
    case PayInvoice(_, _, _) => PayAnswers(t.db, req, env);
    case AddTransaction(_, _, _, _, _, _, _) => ChargeAnswers(t.db, req, env);
    case _ =>
  }

  lemma PayAnswers(l: Ledger, req: Request, env: Env)
    requires req.PayInvoice?
    ensures ApplyPay(l, req, env).result.Ok? ==>
      && req.id in l.invoices && ApplyPay(l, req, env).result.value.InvoiceResponse?
      && ApplyPay(l, req, env).result.value.invoice.card == l.invoices[req.id].card
  {
  }

  lemma ChargeAnswers(l: Ledger, req: Request, env: Env)
    requires req.AddTransaction?
    ensures ApplyAddTransaction(l, req, env).result.Ok? ==>
      ApplyAddTransaction(l, req, env).result.value.TransactionResponse?
  {
  }

  /** A cached invoice survives unless it was paid on or took the charge. */
  lemma InvoiceDropsExactly(t: Tables, req: Request, env: Env, k: (string, string))
    requires k in t.invoiceCache
    ensures
      var out := ServeWrite(t, req, env);
      && (k !in out.data.invoiceCache <==>
            || (out.result.Ok? && req.PayInvoice? && k == (req.user, req.id))
            || (out.result.Ok? && req.AddTransaction? && out.result.value.TransactionResponse?
                && k == (req.user, out.result.value.txn.invoice)))
      && (k in out.data.invoiceCache ==> out.data.invoiceCache[k] == t.invoiceCache[k])
  {
    if req.AddTransaction? { ChargeAnswers(t.db, req, env); }
  }

  /** A card read succeeds exactly for the user's live card, answers it right in everything but its available credit,
      and leaves it cached; read again, it answers the same. */
  lemma ReadCardExactly(t: Tables, id: string, user: string, exact: bool)
    requires CachesOk(t, exact)
    ensures
      var out := ReadCard(t, id, user);
      && (out.result.Ok? <==> FindCard(t.db, id, user).Some?)
      && (out.result.Err? ==> out == Outcome(t, Err(NotFound)))
      && (out.result.Ok? ==>
            && out.data.db == t.db && (user, id) in out.data.cardCache && out.result.value.CardResponse?
            && out.result.value.id == id
            && out.result.value.card == t.db.cards[id].(available := out.result.value.card.available)
            && ((user, id) !in t.cardCache ==> out.result.value.card == t.db.cards[id])
            && ReadCard(out.data, id, user) == Outcome(out.data, out.result))
  {
    if (user, id) in t.cardCache { assert CardEntryOk(t.db, (user, id), t.cardCache[(user, id)]); }
  }

  /** An invoice read likewise, exact in everything, or in everything but the status if that also moves outside. */
  lemma ReadInvoiceExactly(t: Tables, id: string, user: string, exact: bool)
    requires CachesOk(t, exact)
    ensures
      var out := ReadInvoice(t, id, user);
      && (out.result.Ok? <==> FindInvoice(t.db, id, user).Some?)
      && (out.result.Err? ==> out == Outcome(t, Err(NotFound)))
      && (out.result.Ok? ==>
            && out.data.db == t.db && (user, id) in out.data.invoiceCache && out.result.value.InvoiceResponse?
            && out.result.value.id == id
            && out.result.value.invoice == t.db.invoices[id].(status := out.result.value.invoice.status)
            && (exact || (user, id) !in t.invoiceCache ==> out.result.value.invoice == t.db.invoices[id])
            && ReadInvoice(out.data, id, user) == Outcome(out.data, out.result))
  {
    if (user, id) in t.invoiceCache { assert InvoiceEntryOk(t.db, (user, id), t.invoiceCache[(user, id)], exact); }
  }
}
