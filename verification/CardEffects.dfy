/** What each card request does to the rows, field by field, and when it is accepted. Payments and the placing of
    charges are in CardInvoiceRules. */
module CardEffects {
  import opened Common
  import opened ReferenceMonth
  import opened CardEntities
  import opened CardLedger
  import opened CardConservation
  import opened CardInvoiceRules

  // ---------------------------------------------------------------- the schema's lists

  /** Exactly the brands, card types and days the table's CHECKs list. */
  lemma CardListsOfSchema(brand: string, cardType: string, day: int)
    ensures ValidBrand(brand) <==> brand in {"visa", "mastercard", "amex", "elo", "hipercard", "diners", "other"}
    ensures ValidCardType(cardType) <==> cardType in {"credit", "debit", "multiple"}
    ensures ValidDay(day) <==> 1 <= day <= 31
  {
  }

  /** The status moves of an invoice there are. */
  lemma TransitionsAre(from: Status, to: Status)
    ensures TransitionAllowed(from, to) <==>
      (from, to) in {(Open, Closed), (Open, Overdue), (Closed, Overdue), (Closed, Paid), (Overdue, Closed),
                     (Overdue, Paid)}
  {
  }

  /** A status move from outside changes the status of its invoice, if it is allowed, and nothing else. */
  lemma TransitionEffect(l: Ledger, id: string, to: Status)
    ensures
      var l' := Next(l, Transition(id, to));
      && l'.cards == l.cards && l'.txns == l.txns && l'.outbox == l.outbox && l'.invoices.Keys == l.invoices.Keys
      && (forall i :: i in l.invoices ==>
            l'.invoices[i] == if i == id && TransitionAllowed(l.invoices[i].status, to)
                              then l.invoices[i].(status := to) else l.invoices[i])
  {
  }

  // ---------------------------------------------------------------- creating a card

  /** A created card is stored as asked for, active and with its whole limit available; nothing else changes. */
  lemma CreateCardEffect(l: Ledger, req: Request, env: Env)
    requires req.CreateCreditCard? && Apply(l, req, env).result.Ok?
    ensures env.newId !in l.cards && env.newId in Apply(l, req, env).data.cards
    ensures
      var out := Apply(l, req, env);
      var l', c := out.data, out.data.cards[env.newId];
      && out.result.value == CardResponse(env.newId, c)
      && c.user == req.user && c.name == req.name && c.brand == req.brand && c.cardType == req.cardType
      && c.lastFour == req.lastFour && c.closingDay == req.closingDay && c.dueDay == req.dueDay
      && c.limit == req.limit && c.available == req.limit && c.active && !c.deleted
      && OnlyRow(l.cards, l'.cards, env.newId) && l'.invoices == l.invoices && l'.txns == l.txns
      && l'.outbox == l.outbox + [CardCreated(env.newId, req.user, req.name, req.brand, req.cardType, req.lastFour,
                                              req.limit)]
  {
  }

  lemma CreateCardAcceptedExactly(l: Ledger, req: Request, env: Env)
    requires req.CreateCreditCard?
    ensures Apply(l, req, env).result.Ok? <==>
      && ValidBrand(req.brand) && ValidCardType(req.cardType) && req.user != "" && req.name != "" && req.lastFour != ""
      && 1 <= req.closingDay <= 31 && 1 <= req.dueDay <= 31 && req.limit >= 0
      && env.newId !in l.cards && !(1 <= env.fault <= 3)
  {
  }

  // ---------------------------------------------------------------- updating a card

  /** Each given field has the value given and each absent one its old value; available credit moves by exactly the
      change of the limit; the rest of the card and every other row stay as they were. */
  lemma UpdateCardEffect(l: Ledger, req: Request, env: Env)
    requires req.UpdateCreditCard? && Apply(l, req, env).result.Ok?
    ensures FindCard(l, req.id, req.user).Some? && req.id in Apply(l, req, env).data.cards
    ensures
      var out, u := Apply(l, req, env), req.change;
      var l', c, c' := out.data, l.cards[req.id], out.data.cards[req.id];
      && out.result.value == CardResponse(req.id, c')
      && c'.name == (if u.name.Some? then u.name.value else c.name)
      && c'.closingDay == (if u.closingDay.Some? then u.closingDay.value else c.closingDay)
      && c'.dueDay == (if u.dueDay.Some? then u.dueDay.value else c.dueDay)
      && c'.limit == (if u.limit.Some? then u.limit.value else c.limit)
      && c'.available - c.available == c'.limit - c.limit
      && c'.active == (if u.active.Some? then u.active.value else c.active)
      && c'.user == c.user && c'.brand == c.brand && c'.cardType == c.cardType && c'.lastFour == c.lastFour
      && !c'.deleted
      && OnlyRow(l.cards, l'.cards, req.id) && l'.invoices == l.invoices && l'.txns == l.txns
      && l'.outbox == l.outbox + [CardUpdated(req.id, req.user, c'.name, c'.active, c'.available, c'.limit)]
  {
  }

  lemma UpdateCardAcceptedExactly(l: Ledger, req: Request, env: Env)
    requires req.UpdateCreditCard?
    ensures Apply(l, req, env).result.Ok? <==>
      var u := req.change;
      && FindCard(l, req.id, req.user).Some?
      && u.name != Some("")
      && (u.closingDay.Some? ==> 1 <= u.closingDay.value <= 31) && (u.dueDay.Some? ==> 1 <= u.dueDay.value <= 31)
      && (u.limit.Some? ==> u.limit.value >= 0)
      && (env.constraints ==>
            var c := l.cards[req.id];
            (if u.limit.Some? then u.limit.value else c.limit) >= c.limit - c.available)
      && !(1 <= env.fault <= 3)
  {
  }

  // ---------------------------------------------------------------- deleting a card

  /** A delete is never refused for want of a row. It marks the user's live card and no other, and from then on nobody
      finds it; its invoices stay. */
  lemma DeleteCardEffect(l: Ledger, req: Request, env: Env)
    requires req.DeleteCreditCard?
    ensures Apply(l, req, env).result.Ok? <==> !(1 <= env.fault <= 3)
    ensures Apply(l, req, env).result.Ok? ==>
      var l' := Apply(l, req, env).data;
      && l'.cards.Keys == l.cards.Keys
      && (forall c :: c in l.cards ==>
            l'.cards[c] == if c == req.id && l.cards[c].user == req.user then l.cards[c].(deleted := true)
              else l.cards[c])
      && FindCard(l', req.id, req.user).None?
      && l'.invoices == l.invoices && l'.txns == l.txns && l'.outbox == l.outbox + [CardDeleted(req.id, req.user)]
  {
  }

  /** A card never goes away, never changes hands, and once deleted stays as it is. */
  lemma CardStays(l: Ledger, m: Move, c: string)
    requires c in l.cards
    ensures
      var l' := Next(l, m);
      && c in l'.cards && l'.cards[c].user == l.cards[c].user
      && (l.cards[c].deleted ==> l'.cards[c] == l.cards[c])
  {
    if m.Call? && m.req.AddTransaction? && ResolveTarget(l, m.req, m.env).Ok? {
      ChargeStays(l, ResolveTarget(l, m.req, m.env).value, m.req, m.env, c);
    } else if m.Call? && m.req.PayInvoice? {
      PayStays(l, m.req, m.env, c);
    }
  }

  lemma PayStays(l: Ledger, req: Request, env: Env, c: string)
    requires c in l.cards && req.PayInvoice?
    ensures
      var l' := ApplyPay(l, req, env).data;
      && c in l'.cards && l'.cards[c].user == l.cards[c].user
      && (l.cards[c].deleted ==> l'.cards[c] == l.cards[c])
  {
  }

  lemma ChargeStays(l: Ledger, t: Target, req: Request, env: Env, c: string)
    requires c in l.cards && req.AddTransaction?
    ensures
      var l' := ChargeTo(l, t, req, env).data;
      && c in l'.cards && l'.cards[c].user == l.cards[c].user
      && (l.cards[c].deleted ==> l'.cards[c] == l.cards[c])
  {
  }

  /** After a delete nobody ever finds the card again, in any run. */
  lemma {:induction false} DeletedStaysDeleted(l: Ledger, moves: seq<Move>, c: string, user: string)
    requires c in l.cards && l.cards[c].deleted
    ensures FindCard(Run(l, moves), c, user).None?
    decreases |moves|
  {
    if moves != [] {
      CardStays(l, moves[0], c);
      DeletedStaysDeleted(Next(l, moves[0]), moves[1..], c, user);
    }
  }

  // ---------------------------------------------------------------- creating an invoice

  /** A created invoice is stored as asked for, open and empty; nothing else changes. */
  lemma CreateInvoiceEffect(l: Ledger, req: Request, env: Env)
    requires req.CreateInvoice? && Apply(l, req, env).result.Ok?
    ensures env.newId !in l.invoices && env.newId in Apply(l, req, env).data.invoices
    ensures
      var out := Apply(l, req, env);
      var l', inv := out.data, out.data.invoices[env.newId];
      && out.result.value == InvoiceResponse(env.newId, inv)
      && inv.card == req.card && inv.user == req.user && inv.month == req.month
      && inv.closing == Given(req.closing) && inv.due == Given(req.due)
      && inv.total == 0 && inv.paid == 0 && inv.status == Open
      && OnlyRow(l.invoices, l'.invoices, env.newId) && l'.cards == l.cards && l'.txns == l.txns
      && l'.outbox == l.outbox + [InvoiceCreated(env.newId, req.user, req.card, req.month, 0, Given(req.closing),
                                                 Given(req.due))]
  {
  }

  /** A new invoice needs the user's live and active card, an accepted month and both dates. */
  lemma CreateInvoiceAcceptedExactly(l: Ledger, req: Request, env: Env)
    requires req.CreateInvoice?
    ensures Apply(l, req, env).result.Ok? <==>
      && FindCard(l, req.card, req.user).Some? && l.cards[req.card].active
      && req.card != "" && req.user != "" && IsValidMonth(req.month) && req.closing != "" && req.due != ""
      && env.newId !in l.invoices && !(1 <= env.fault <= 3)
  {
  }

  // ---------------------------------------------------------------- what a payment and a charge record

  /** The answer and the event of a payment carry the row it stored; the card gets the amount back, but never beyond its
      limit, whatever state the ledger is in. */
  lemma PaymentRecorded(l: Ledger, req: Request, env: Env)
    requires req.PayInvoice? && Apply(l, req, env).result.Ok?
    ensures FindInvoice(l, req.id, req.user).Some? && req.id in Apply(l, req, env).data.invoices
    ensures
      var out := Apply(l, req, env);
      var l', inv, inv' := out.data, l.invoices[req.id], out.data.invoices[req.id];
      && out.result.value == InvoiceResponse(req.id, inv')
      && inv' == inv.(paid := inv.paid + req.amount, status := inv'.status)
      && inv.card in l.cards && inv.card in l'.cards
      && (var c, c' := l.cards[inv.card], l'.cards[inv.card];
          && c' == c.(available := c'.available)
          && c'.available == if c.available + req.amount > c.limit then c.limit else c.available + req.amount)
      && OnlyRow(l.invoices, l'.invoices, req.id) && OnlyRow(l.cards, l'.cards, inv.card) && l'.txns == l.txns
      && l'.outbox == l.outbox
        + [InvoicePaid(req.id, req.user, inv.card, req.amount, inv'.paid, inv.total, inv'.status)]
  {
  }

  /** The stored transaction is the request's on the invoice that took the charge, with the defaults for an empty
      category and for fewer than one installment; answer and event carry it. */
  predicate Records(l: Ledger, req: Request, env: Env, out: Effect)
    requires req.AddTransaction? && out.result.Ok?
  {
    && env.newId !in l.txns && env.newId in out.data.txns
    && var tx := out.data.txns[env.newId];
    && out.result.value == TransactionResponse(env.newId, tx) && OnlyRow(l.txns, out.data.txns, env.newId)
    && tx.user == req.user && tx.description == req.description && tx.amount == req.amount && tx.date == req.date
    && tx.category == (if req.category == "" then "other" else req.category)
    && tx.installments == (if req.installments < 1 then 1 else req.installments)
    && req.invoice in l.invoices && tx.invoice in out.data.invoices
    && out.data.outbox == l.outbox + [TransactionAdded(env.newId, req.user, tx.invoice, l.invoices[req.invoice].card,
                                                       tx.description, tx.amount, tx.category, tx.date,
                                                       tx.installments)]
  }

  lemma ChargeRecorded(l: Ledger, req: Request, env: Env)
    requires req.AddTransaction? && ApplyAddTransaction(l, req, env).result.Ok?
    ensures Records(l, req, env, ApplyAddTransaction(l, req, env))
  {
    TargetChosen(l, req, env);
    TargetRecorded(l, ResolveTarget(l, req, env).value, req, env);
  }

  lemma TargetRecorded(l: Ledger, t: Target, req: Request, env: Env)
    requires req.AddTransaction? && ChargeTo(l, t, req, env).result.Ok?
    requires req.invoice in l.invoices && t.invoice.card == l.invoices[req.invoice].card
    ensures Records(l, req, env, ChargeTo(l, t, req, env))
  {
  }

  /** The whole row the charge leaves: a stored invoice with nothing but its total changed, or a new one of the
      following month, unpaid, closing on the card's closing day of that month and due on its due day of the month
      after. */
  lemma ChargedRow(l: Ledger, req: Request, env: Env)
    requires Inv(l) && req.AddTransaction? && ApplyAddTransaction(l, req, env).result.Ok?
    ensures
      var l' := ApplyAddTransaction(l, req, env).data;
      && env.newId in l'.txns && l'.txns[env.newId].invoice in l'.invoices && req.invoice in l.invoices
      && l.invoices[req.invoice].card in l.cards
      && var i := l'.txns[env.newId].invoice;
      && var asked := l.invoices[req.invoice];
      && var card, next := l.cards[asked.card], NextReferenceMonth(asked.month);
      && l'.invoices[i] == if i in l.invoices then l.invoices[i].(total := l.invoices[i].total + req.amount)
                           else Invoice(asked.card, req.user, next, req.amount, 0, Open, OnDay(next, card.closingDay),
                                        OnDay(NextReferenceMonth(next), card.dueDay))
  {
    ChargeRecorded(l, req, env);
    TargetShape(l, req, env);
    TargetDates(l, req, env);
    TargetRow(l, ResolveTarget(l, req, env).value, req, env);
  }

  lemma TargetDates(l: Ledger, req: Request, env: Env)
    requires req.AddTransaction? && ResolveTarget(l, req, env).Ok?
    ensures req.invoice in l.invoices
    ensures ResolveTarget(l, req, env).value.isNew ==>
      var asked := l.invoices[req.invoice];
      && asked.card in l.cards
      && var card, next := l.cards[asked.card], NextReferenceMonth(asked.month);
      && ResolveTarget(l, req, env).value.invoice
         == Invoice(asked.card, req.user, next, 0, 0, Open, OnDay(next, card.closingDay),
                    OnDay(NextReferenceMonth(next), card.dueDay))
  {
  }

  lemma TargetRow(l: Ledger, t: Target, req: Request, env: Env)
    requires req.AddTransaction? && TargetOk(l, t, req.user) && ChargeTo(l, t, req, env).result.Ok?
    ensures
      var l' := ChargeTo(l, t, req, env).data;
      && env.newId in l'.txns && l'.txns[env.newId].invoice == t.id && t.id in l'.invoices
      && l'.invoices[t.id] == t.invoice.(total := t.invoice.total + req.amount)
      && (t.isNew <==> t.id !in l.invoices) && t.invoice.card in l.cards
  {
  }

  // ---------------------------------------------------------------- errors

  /** No error without its cause: cards. */
  lemma CardErrors(l: Ledger, req: Request, env: Env)
    requires (req.CreateCreditCard? || req.UpdateCreditCard? || req.DeleteCreditCard?) && Apply(l, req, env).result.Err?
    ensures
      match Apply(l, req, env).result.error
      case InvalidCardBrand => req.CreateCreditCard? && !ValidBrand(req.brand)
      case InvalidCardType => req.CreateCreditCard? && !ValidCardType(req.cardType)
      case MissingField =>
        || (req.CreateCreditCard? && (req.user == "" || req.name == "" || req.lastFour == ""))
        || (req.UpdateCreditCard? && req.change.name == Some(""))
      case InvalidDay =>
        || (req.CreateCreditCard? && !(1 <= req.closingDay <= 31 && 1 <= req.dueDay <= 31))
        || (req.UpdateCreditCard? && req.change.closingDay.Some? && !(1 <= req.change.closingDay.value <= 31))
        || (req.UpdateCreditCard? && req.change.dueDay.Some? && !(1 <= req.change.dueDay.value <= 31))
      case NegativeAmount =>
        || (req.CreateCreditCard? && req.limit < 0)
        || (req.UpdateCreditCard? && req.change.limit.Some? && req.change.limit.value < 0)
      case NotFound => req.UpdateCreditCard? && FindCard(l, req.id, req.user).None?
      case StoreFailure =>
        || 1 <= env.fault <= 3 || (req.CreateCreditCard? && env.newId in l.cards)
        || (req.UpdateCreditCard? && env.constraints)
      case _ => false
  {
  }

  /** Invoices and payments. */
  lemma InvoiceErrors(l: Ledger, req: Request, env: Env)
    requires (req.CreateInvoice? || req.PayInvoice?) && Apply(l, req, env).result.Err?
    ensures
      match Apply(l, req, env).result.error
      case NotFound =>
        || (req.CreateInvoice? && FindCard(l, req.card, req.user).None?)
        || (req.PayInvoice? && (FindInvoice(l, req.id, req.user).None?
                                || FindCard(l, l.invoices[req.id].card, req.user).None?))
      case Validation => req.CreateInvoice? && req.card in l.cards && !l.cards[req.card].active
      case MissingField =>
        && req.CreateInvoice?
        && (req.card == "" || req.user == "" || req.month == "" || req.closing == "" || req.due == "")
      case InvalidMonth => req.CreateInvoice? && !IsValidMonth(req.month)
      case InvoiceAlreadyPaid => req.PayInvoice? && req.id in l.invoices && l.invoices[req.id].status == Paid
      case NegativeAmount => req.PayInvoice? && req.amount <= 0
      case PaymentExceedsAmount =>
        req.PayInvoice? && req.id in l.invoices && req.amount > l.invoices[req.id].total - l.invoices[req.id].paid
      case StoreFailure =>
        || 1 <= env.fault <= 4 || (req.CreateInvoice? && env.newId in l.invoices)
        || (req.PayInvoice? && env.constraints)
      case _ => false
  {
  }

  /** Charges on a chosen target. */
  lemma ChargeErrors(l: Ledger, t: Target, req: Request, env: Env)
    requires req.AddTransaction? && ChargeTo(l, t, req, env).result.Err?
    ensures
      match ChargeTo(l, t, req, env).result.error
      case MissingField => t.id == "" || req.user == "" || req.description == "" || req.date == ""
      case NegativeAmount => req.amount <= 0
      case InvoiceNotOpen => t.invoice.status != Open
      case NotFound => FindCard(l, t.invoice.card, req.user).None?
      case CreditExceeded => t.invoice.card in l.cards && req.amount > l.cards[t.invoice.card].available
      case StoreFailure =>
        || 1 <= env.fault <= 5 || env.newId in l.txns || (t.isNew && t.id in l.invoices)
        || (env.constraints && t.id !in l.invoices)
      case _ => false
  {
  }

  /** Finding the target. */
  lemma TargetErrors(l: Ledger, req: Request, env: Env)
    requires req.AddTransaction? && ResolveTarget(l, req, env).Err?
    ensures
      match ResolveTarget(l, req, env).error
      case NotFound =>
        FindInvoice(l, req.invoice, req.user).None? || FindCard(l, l.invoices[req.invoice].card, req.user).None?
      case StoreFailure =>
        && req.invoice in l.invoices
        && var asked := l.invoices[req.invoice];
        && !NoneInMonth(l, asked.card, NextReferenceMonth(asked.month))
      case InvalidMonth =>
        req.invoice in l.invoices && !IsValidMonth(NextReferenceMonth(l.invoices[req.invoice].month))
      case MissingField => req.user == "" || (req.invoice in l.invoices && l.invoices[req.invoice].card == "")
                           || (req.invoice in l.invoices && NextReferenceMonth(l.invoices[req.invoice].month) == "")
      case _ => false
  {
  }
}
