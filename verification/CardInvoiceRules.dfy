/** Invoice life cycle: where charges land, when an invoice counts as paid, and what the database refuses. */
module CardInvoiceRules {
  import opened Common
  import opened ReferenceMonth
  import opened CardEntities
  import opened CardLedger
  import opened CardConservation

  // ---------------------------------------------------------------- paid exactly when fully paid

  predicate PaidMeansPaid(inv: Invoice) {
    inv.status == Paid <==> inv.total == inv.paid && inv.total > 0
  }

  predicate StatusOk(l: Ledger) {
    forall i :: i in l.invoices ==> PaidMeansPaid(l.invoices[i])
  }

  /** An outside move that marks a closed or overdue invoice as paid. */
  predicate ForcesPaid(l: Ledger, m: Move) {
    && m.Transition? && m.to == Paid && m.id in l.invoices
    && (l.invoices[m.id].status == Closed || l.invoices[m.id].status == Overdue)
  }

  lemma StatusCharge(l: Ledger, t: Target, req: Request, env: Env)
    requires Inv(l) && StatusOk(l) && req.AddTransaction? && TargetOk(l, t, req.user)
    ensures StatusOk(ChargeTo(l, t, req, env).data)
  {
    if !t.isNew { assert InvoiceOk(l, t.id); }
  }

  lemma StatusPay(l: Ledger, req: Request, env: Env)
    requires Inv(l) && StatusOk(l) && req.PayInvoice?
    ensures StatusOk(ApplyPay(l, req, env).data)
  {
    if ApplyPay(l, req, env).result.Ok? { assert InvoiceOk(l, req.id); }
  }

  lemma StatusCall(l: Ledger, req: Request, env: Env)
    requires Inv(l) && StatusOk(l)
    ensures StatusOk(Apply(l, req, env).data)
  {
    match req
    case PayInvoice(_, _, _) => StatusPay(l, req, env);
    case AddTransaction(_, _, _, _, _, _, _) =>
      if ResolveTarget(l, req, env).Ok? {
        TargetShape(l, req, env);
        StatusCharge(l, ResolveTarget(l, req, env).value, req, env);
      }
    case _ =>
  }

  /** One move keeps the rule exactly when it is not such a forced one: TransitionStatus itself lets a closed invoice
      become paid with nothing paid. */
  lemma ForcedPaidBreaksRule(l: Ledger, m: Move)
    requires Inv(l) && StatusOk(l)
    ensures StatusOk(Next(l, m)) <==> !ForcesPaid(l, m)
  {
    match m
    case Call(req, env) => StatusCall(l, req, env);
    case Transition(id, to) =>
      if ForcesPaid(l, m) {
        assert PaidMeansPaid(l.invoices[id]);
        assert !PaidMeansPaid(Next(l, m).invoices[id]);
      }
  }

  /** No outside move along the run marks a closed or overdue invoice as paid. */
  predicate NeverForcesPaid(l: Ledger, moves: seq<Move>)
    decreases |moves|
  {
    moves == [] || (!ForcesPaid(l, moves[0]) && NeverForcesPaid(Next(l, moves[0]), moves[1..]))
  }

  /** After any history an invoice is paid exactly when its payments have reached a positive total, if and only if no
      move of the history forced an invoice to paid: one that did is never put right again. */
  lemma {:induction false} PaidExactlyWhenFullyPaid(l: Ledger, moves: seq<Move>)
    requires Inv(l) && StatusOk(l)
    ensures StatusOk(Run(l, moves)) <==> NeverForcesPaid(l, moves)
    decreases |moves|
  {
    if moves != [] {
      var l' := Next(l, moves[0]);
      NextKeeps(l, moves[0]);
      ForcedPaidBreaksRule(l, moves[0]);
      if ForcesPaid(l, moves[0]) {
        var i := moves[0].id;
        assert PaidMeansPaid(l.invoices[i]) && !PaidMeansPaid(l'.invoices[i]);
        TotalFrozenOnceNotOpen(l', moves[1..], i);
        assert !PaidMeansPaid(Run(l', moves[1..]).invoices[i]);
      } else {
        PaidExactlyWhenFullyPaid(l', moves[1..]);
      }
    }
  }

  // ---------------------------------------------------------------- frozen once it leaves open

  /** What an invoice may become later. */
  predicate Ages(a: Invoice, b: Invoice) {
    && b.card == a.card && b.user == a.user && b.month == a.month && a.total <= b.total && a.paid <= b.paid
    && (a.status != Open ==> b.status != Open && b.total == a.total)
    && (a.status == Paid ==> b == a)
  }

  lemma FrozenCharge(l: Ledger, t: Target, req: Request, env: Env, i: string)
    requires i in l.invoices && req.AddTransaction?
      && (!t.isNew ==> t.id in l.invoices && t.invoice == l.invoices[t.id])
    ensures i in ChargeTo(l, t, req, env).data.invoices
      && Ages(l.invoices[i], ChargeTo(l, t, req, env).data.invoices[i])
  {
  }

  lemma FrozenPay(l: Ledger, req: Request, env: Env, i: string)
    requires i in l.invoices && req.PayInvoice?
    ensures i in ApplyPay(l, req, env).data.invoices && Ages(l.invoices[i], ApplyPay(l, req, env).data.invoices[i])
  {
  }

  lemma FrozenAdd(l: Ledger, req: Request, env: Env, i: string)
    requires i in l.invoices && req.AddTransaction?
    ensures i in ApplyAddTransaction(l, req, env).data.invoices
    ensures Ages(l.invoices[i], ApplyAddTransaction(l, req, env).data.invoices[i])
  {
    var t := ResolveTarget(l, req, env);
    if t.Ok? { FrozenCharge(l, t.value, req, env, i); }
  }

  lemma FrozenOpen(l: Ledger, req: Request, env: Env, i: string)
    requires i in l.invoices && req.CreateInvoice?
    ensures i in ApplyCreateInvoice(l, req, env).data.invoices
    ensures ApplyCreateInvoice(l, req, env).data.invoices[i] == l.invoices[i]
  {
  }

  /** The requests about cards leave the invoices alone. */
  lemma CardRequests(l: Ledger, req: Request, env: Env)
    requires req.CreateCreditCard? || req.UpdateCreditCard? || req.DeleteCreditCard?
    ensures Apply(l, req, env).data.invoices == l.invoices
  {
  }

  lemma FrozenNext(l: Ledger, m: Move, i: string)
    requires i in l.invoices
    ensures i in Next(l, m).invoices && Ages(l.invoices[i], Next(l, m).invoices[i])
  {
    if m.Call? {
      match m.req {
        case AddTransaction(_, _, _, _, _, _, _) => FrozenAdd(l, m.req, m.env, i);
        case PayInvoice(_, _, _) => FrozenPay(l, m.req, m.env, i);
        case CreateInvoice(_, _, _, _, _) => FrozenOpen(l, m.req, m.env, i);
        case _ => CardRequests(l, m.req, m.env);
      }
    }
  }

  /** Once an invoice leaves open it never reopens and its total never changes again; once paid the whole row
      is final. */
  lemma {:induction false} TotalFrozenOnceNotOpen(l: Ledger, moves: seq<Move>, i: string)
    requires i in l.invoices
    ensures i in Run(l, moves).invoices && Ages(l.invoices[i], Run(l, moves).invoices[i])
    decreases |moves|
  {
    if moves != [] {
      FrozenNext(l, moves[0], i);
      TotalFrozenOnceNotOpen(Next(l, moves[0]), moves[1..], i);
    }
  }

  // ---------------------------------------------------------------- where a charge lands

  /** The only invoice row that differs between the two ledgers is `i`. */
  predicate OnlyInvoiceChanged(l: Ledger, l': Ledger, i: string) {
    && l'.invoices.Keys == l.invoices.Keys + {i}
    && forall j :: j in l.invoices && j != i ==> l'.invoices[j] == l.invoices[j]
  }

  /** A successful charge adds exactly its amount to one open invoice of the requested invoice's card: the
      requested invoice if that is open, otherwise one of the following reference month. Nothing else moves
      but the card's available credit, down by the same amount. */
  lemma ChargeLands(l: Ledger, req: Request, env: Env)
    requires Inv(l) && req.AddTransaction? && ApplyAddTransaction(l, req, env).result.Ok?
    ensures req.invoice in l.invoices && ApplyAddTransaction(l, req, env).result.value.TransactionResponse?
    ensures
      var out := ApplyAddTransaction(l, req, env);
      Landed(l, out.data, l.invoices[req.invoice], req, out.result.value.txn.invoice)
  {
    TargetShape(l, req, env);
    TargetChosen(l, req, env);
    ChargeToLands(l, ResolveTarget(l, req, env).value, req, env);
  }

  predicate Landed(l: Ledger, l': Ledger, asked: Invoice, req: Request, landed: string)
    requires req.AddTransaction?
  {
    && landed in l'.invoices && OnlyInvoiceChanged(l, l', landed)
    && l'.invoices[landed].status == Open
    && l'.invoices[landed].card == asked.card
    && l'.invoices[landed].total == (if landed in l.invoices then l.invoices[landed].total else 0) + req.amount
    && (asked.status == Open ==> landed == req.invoice)
    && (asked.status != Open ==> landed != req.invoice && l'.invoices[landed].month == NextReferenceMonth(asked.month))
    && asked.card in l.cards
    && l'.cards == l.cards[asked.card := l.cards[asked.card].(available := l.cards[asked.card].available - req.amount)]
  }

  /** Which invoice is chosen, whatever becomes of the charge. */
  lemma TargetChosen(l: Ledger, req: Request, env: Env)
    requires req.AddTransaction? && ResolveTarget(l, req, env).Ok?
    ensures req.invoice in l.invoices
    ensures
      var asked, t := l.invoices[req.invoice], ResolveTarget(l, req, env).value;
      && t.invoice.card == asked.card
      && (asked.status == Open ==> t.id == req.invoice && !t.isNew)
      && (asked.status != Open ==> t.invoice.month == NextReferenceMonth(asked.month))
  {
  }

  lemma ChargeToLands(l: Ledger, t: Target, req: Request, env: Env)
    requires req.AddTransaction? && TargetOk(l, t, req.user) && ChargeTo(l, t, req, env).result.Ok?
    requires req.invoice in l.invoices && t.invoice.card == l.invoices[req.invoice].card
    requires l.invoices[req.invoice].status == Open ==> t.id == req.invoice && !t.isNew
    requires l.invoices[req.invoice].status != Open ==>
      t.invoice.month == NextReferenceMonth(l.invoices[req.invoice].month)
    ensures Landed(l, ChargeTo(l, t, req, env).data, l.invoices[req.invoice], req,
                   ChargeTo(l, t, req, env).result.value.txn.invoice)
  {
  }

  /** The landing month is one calendar month later exactly when the asked month's year is made of digits. */
  lemma RolloverMonth(l: Ledger, req: Request, env: Env)
    requires Inv(l) && req.AddTransaction? && ApplyAddTransaction(l, req, env).result.Ok?
    requires l.invoices[req.invoice].status != Open
    requires IsValidMonth(l.invoices[req.invoice].month)
    ensures
      var asked := l.invoices[req.invoice].month;
      var out := ApplyAddTransaction(l, req, env);
      var landed := out.data.invoices[out.result.value.txn.invoice].month;
      DigitYear(asked) <==>
        && ParseMonth(asked).Some? && ParseMonth(landed).Some?
        && MonthIndex(ParseMonth(landed).value) == MonthIndex(ParseMonth(asked).value) + 1
  {
    ChargeLands(l, req, env);
    NextMonthIsOneLater(l.invoices[req.invoice].month);
    ValidMonthParses(l.invoices[req.invoice].month);
  }

  predicate MonthsValid(l: Ledger) {
    forall i :: i in l.invoices ==> IsValidMonth(l.invoices[i].month)
  }

  lemma MonthsTarget(l: Ledger, req: Request, env: Env)
    requires MonthsValid(l) && req.AddTransaction?
    ensures ResolveTarget(l, req, env).Ok? ==> IsValidMonth(ResolveTarget(l, req, env).value.invoice.month)
  {
  }

  lemma MonthsChargeTo(l: Ledger, t: Target, req: Request, env: Env)
    requires MonthsValid(l) && req.AddTransaction? && IsValidMonth(t.invoice.month)
    ensures MonthsValid(ChargeTo(l, t, req, env).data)
  {
  }

  lemma MonthsCharge(l: Ledger, req: Request, env: Env)
    requires MonthsValid(l) && req.AddTransaction?
    ensures MonthsValid(ApplyAddTransaction(l, req, env).data)
  {
    MonthsTarget(l, req, env);
    if ResolveTarget(l, req, env).Ok? { MonthsChargeTo(l, ResolveTarget(l, req, env).value, req, env); }
  }

  lemma MonthsPay(l: Ledger, req: Request, env: Env)
    requires MonthsValid(l) && req.PayInvoice?
    ensures MonthsValid(ApplyPay(l, req, env).data)
  {
  }

  lemma MonthsNext(l: Ledger, m: Move)
    requires MonthsValid(l)
    ensures MonthsValid(Next(l, m))
  {
    if m.Call? {
      match m.req {
        case AddTransaction(_, _, _, _, _, _, _) => MonthsCharge(l, m.req, m.env);
        case PayInvoice(_, _, _) => MonthsPay(l, m.req, m.env);
        case CreateInvoice(_, _, _, _, _) =>
        case _ => CardRequests(l, m.req, m.env);
      }
    }
  }

  /** Every stored invoice carries a month that passed validation, rollover invoices included. */
  lemma {:induction false} MonthsStayValid(l: Ledger, moves: seq<Move>)
    requires MonthsValid(l)
    ensures MonthsValid(Run(l, moves))
    decreases |moves|
  {
    if moves != [] {
      MonthsNext(l, moves[0]);
      MonthsStayValid(Next(l, moves[0]), moves[1..]);
    }
  }

  // ---------------------------------------------------------------- what a payment does, and when it is accepted

  /** A successful payment adds its full amount to the invoice and gives the same amount back to the card; no other
      row moves. */
  lemma PaymentEffect(l: Ledger, req: Request, env: Env)
    requires Inv(l) && req.PayInvoice? && ApplyPay(l, req, env).result.Ok?
    ensures req.id in l.invoices && l.invoices[req.id].card in l.cards
    ensures
      var inv, l' := l.invoices[req.id], ApplyPay(l, req, env).data;
      var c := l.cards[inv.card];
      && 0 < req.amount <= inv.total - inv.paid
      && l'.invoices == l.invoices[req.id := inv.(paid := inv.paid + req.amount,
                                                  status := if inv.paid + req.amount == inv.total then Paid
                                                            else inv.status)]
      && l'.cards == l.cards[inv.card := c.(available := c.available + req.amount)]
      && l'.txns == l.txns
  {
    CapNeverFires(l, req.id, req.amount);
  }

  /** With no refused write a payment is accepted exactly when the invoice is the user's and not yet paid, its card is
      live, and the amount is positive and at most what is owed; with the constraints enforced it must also bring the
      card's available credit back to zero at least, which matters only after a limit cut. */
  lemma PaymentAcceptedExactly(l: Ledger, req: Request, env: Env)
    requires Inv(l) && req.PayInvoice? && env.fault == 0
    ensures ApplyPay(l, req, env).result.Ok? <==>
      && FindInvoice(l, req.id, req.user).Some?
      && l.invoices[req.id].status != Paid
      && FindCard(l, l.invoices[req.id].card, req.user).Some?
      && 0 < req.amount <= l.invoices[req.id].total - l.invoices[req.id].paid
      && (env.constraints ==> l.cards[l.invoices[req.id].card].available + req.amount >= 0)
  {
    if FindInvoice(l, req.id, req.user).Some? && PayError(l.invoices[req.id], req.amount) == None {
      CapNeverFires(l, req.id, req.amount);
    }
  }

  /** Somewhere for the charge to go: the requested invoice if it is open, otherwise an open one of the following month;
      a missing one can only be opened while the constraints are not enforced. */
  predicate HasTarget(l: Ledger, id: string, env: Env)
    requires id in l.invoices
  {
    var asked := l.invoices[id];
    var next := NextReferenceMonth(asked.month);
    if asked.status == Open then id != ""
    else if MonthMatch(l, env.pick, asked.card, next) then env.pick != "" && l.invoices[env.pick].status == Open
    else !env.constraints && NoneInMonth(l, asked.card, next) && asked.card != "" && IsValidMonth(next)
  }

  predicate NoneInMonth(l: Ledger, card: string, month: string) {
    forall i :: i in l.invoices ==> !MonthMatch(l, i, card, month)
  }

  /** With no refused write and new ids, a charge is accepted exactly when user, description and date are given, the
      invoice is the user's, its card is live and has the credit, and there is an invoice to take it. */
  lemma ChargeAcceptedExactly(l: Ledger, req: Request, env: Env)
    requires Inv(l) && req.AddTransaction? && env.fault == 0
    requires env.newId !in l.txns && env.newInvoiceId !in l.invoices && env.newInvoiceId != ""
    ensures ApplyAddTransaction(l, req, env).result.Ok? <==>
      && req.user != "" && req.description != "" && req.date != ""
      && FindInvoice(l, req.invoice, req.user).Some?
      && FindCard(l, l.invoices[req.invoice].card, req.user).Some?
      && 0 < req.amount <= l.cards[l.invoices[req.invoice].card].available
      && HasTarget(l, req.invoice, env)
  {
    if FindInvoice(l, req.invoice, req.user).Some? && FindCard(l, l.invoices[req.invoice].card, req.user).Some? {
      TargetExactly(l, req, env);
      if ResolveTarget(l, req, env).Ok? {
        TargetShape(l, req, env);
        TargetChosen(l, req, env);
        ChargeToExactly(l, ResolveTarget(l, req, env).value, req, env);
      }
    }
  }

  /** The same for a target already chosen. */
  lemma ChargeToExactly(l: Ledger, t: Target, req: Request, env: Env)
    requires req.AddTransaction? && env.fault == 0 && env.newId !in l.txns
    requires TargetOk(l, t, req.user) && (t.isNew ==> t.id !in l.invoices)
    ensures ChargeTo(l, t, req, env).result.Ok? <==>
      && req.user != "" && req.description != "" && req.date != "" && t.id != ""
      && FindCard(l, t.invoice.card, req.user).Some?
      && 0 < req.amount <= l.cards[t.invoice.card].available
      && t.invoice.status == Open && (t.isNew ==> !env.constraints)
  {
  }

  /** When a target is found at all, and that it can take a charge exactly when HasTarget says so. */
  lemma TargetExactly(l: Ledger, req: Request, env: Env)
    requires req.AddTransaction? && env.newInvoiceId != "" && FindInvoice(l, req.invoice, req.user).Some?
    requires FindCard(l, l.invoices[req.invoice].card, req.user).Some?
    ensures HasTarget(l, req.invoice, env) && req.user != "" ==> ResolveTarget(l, req, env).Ok?
    ensures ResolveTarget(l, req, env).Ok? ==>
      var t := ResolveTarget(l, req, env).value;
      && (t.isNew ==> t.id == env.newInvoiceId)
      && (HasTarget(l, req.invoice, env) <==>
            t.id != "" && t.invoice.status == Open && (t.isNew ==> !env.constraints))
  {
  }

  /** Charging an invoice and paying the same amount on the one that took it gives the card its credit back, and leaves
      that invoice owing what it owed. */
  lemma ChargeThenPayRestores(l: Ledger, charge: Request, env: Env, mid: Ledger, tx: Txn,
                              pay: Request, env': Env, end: Ledger, inv: Invoice)
    requires Inv(l) && charge.AddTransaction?
    requires ApplyAddTransaction(l, charge, env) == Outcome(mid, Ok(TransactionResponse(env.newId, tx)))
    requires pay.PayInvoice? && pay.id == tx.invoice && pay.amount == charge.amount
    requires ApplyPay(mid, pay, env') == Outcome(end, Ok(InvoiceResponse(pay.id, inv)))
    ensures end.cards == l.cards && inv.total - inv.paid == Owed(l.invoices, pay.id)
    ensures end.invoices == mid.invoices[pay.id := inv]
  {
    AfterCharge(l, charge, env, mid, tx);
    PayBack(l, mid, pay, env', end, inv);
  }

  /** Between the two ledgers an invoice and its card were charged an amount. */
  ghost predicate ChargedOn(l: Ledger, mid: Ledger, i: string, amount: int) {
    && Inv(mid) && i in mid.invoices
    && mid.invoices[i].total - mid.invoices[i].paid == Owed(l.invoices, i) + amount
    && var c := mid.invoices[i].card;
    && c in l.cards && mid.cards == l.cards[c := l.cards[c].(available := l.cards[c].available - amount)]
  }

  lemma AfterCharge(l: Ledger, charge: Request, env: Env, mid: Ledger, tx: Txn)
    requires Inv(l) && charge.AddTransaction?
    requires ApplyAddTransaction(l, charge, env) == Outcome(mid, Ok(TransactionResponse(env.newId, tx)))
    ensures ChargedOn(l, mid, tx.invoice, charge.amount)
  {
    TargetShape(l, charge, env);
    TargetCharged(l, ResolveTarget(l, charge, env).value, charge, env);
  }

  lemma TargetCharged(l: Ledger, t: Target, charge: Request, env: Env)
    requires Inv(l) && charge.AddTransaction? && TargetOk(l, t, charge.user) && ChargeTo(l, t, charge, env).result.Ok?
    ensures ChargedOn(l, ChargeTo(l, t, charge, env).data, t.id, charge.amount)
    ensures ChargeTo(l, t, charge, env).result.value.TransactionResponse?
    ensures ChargeTo(l, t, charge, env).result.value.txn.invoice == t.id
  {
    ChargeKeeps(l, t, charge, env);
  }

  lemma PayBack(l: Ledger, mid: Ledger, pay: Request, env: Env, end: Ledger, inv: Invoice)
    requires pay.PayInvoice? && ApplyPay(mid, pay, env) == Outcome(end, Ok(InvoiceResponse(pay.id, inv)))
    requires ChargedOn(l, mid, pay.id, pay.amount)
    ensures end.cards == l.cards && inv.total - inv.paid == Owed(l.invoices, pay.id)
    ensures end.invoices == mid.invoices[pay.id := inv]
  {
    PaymentEffect(mid, pay, env);
    CreditBack(l.cards, mid.cards, end.cards, mid.invoices[pay.id].card, pay.amount);
  }

  lemma CreditBack(cards: map<string, Card>, mid: map<string, Card>, end: map<string, Card>, c: string, amount: int)
    requires c in cards && mid == cards[c := cards[c].(available := cards[c].available - amount)]
    requires end == mid[c := mid[c].(available := mid[c].available + amount)]
    ensures end == cards
  {
  }

  // ---------------------------------------------------------------- what the schema refuses

  /** With the migrations' foreign keys enforced, no charge can ever open its own rollover invoice: the
      transaction row is inserted before the invoice row it refers to. */
  lemma NewRolloverRefusedBySchema(l: Ledger, req: Request, env: Env)
    requires Inv(l) && req.AddTransaction? && env.constraints
    requires FindInvoice(l, req.invoice, req.user).Some? && l.invoices[req.invoice].status != Open
    requires NoneInMonth(l, l.invoices[req.invoice].card, NextReferenceMonth(l.invoices[req.invoice].month))
    ensures ApplyAddTransaction(l, req, env).result.Err? && ApplyAddTransaction(l, req, env).data == l
  {
    if ResolveTarget(l, req, env).Ok? { assert ResolveTarget(l, req, env).value.isNew; }
  }

  predicate CreditNonNegative(l: Ledger) {
    forall c :: c in l.cards ==> 0 <= l.cards[c].available && 0 <= l.cards[c].limit
  }

  /** A limit set below the used credit, by an update that goes through. */
  predicate CutsLimit(l: Ledger, m: Move) {
    && m.Call? && m.req.UpdateCreditCard? && !m.env.constraints && !Refused(m.env, 3)
    && FindCard(l, m.req.id, m.req.user).Some?
    && var c, change := l.cards[m.req.id], m.req.change.(user := m.req.user);
    && UpdateError(c, change) == None
    && change.limit.Some? && change.limit.value < c.limit - c.available
  }

  lemma CreditUpdate(l: Ledger, req: Request, env: Env)
    requires CreditNonNegative(l) && req.UpdateCreditCard?
    ensures CreditNonNegative(ApplyUpdateCard(l, req, env).data) <==> !CutsLimit(l, Call(req, env))
  {
    var l' := ApplyUpdateCard(l, req, env).data;
    if CutsLimit(l, Call(req, env)) { assert req.id in l'.cards && l'.cards[req.id].available < 0; }
  }

  lemma CreditCharge(l: Ledger, t: Target, req: Request, env: Env)
    requires CreditNonNegative(l) && req.AddTransaction?
    ensures CreditNonNegative(ChargeTo(l, t, req, env).data)
  {
  }

  lemma CreditPay(l: Ledger, req: Request, env: Env)
    requires CreditNonNegative(l) && req.PayInvoice?
    ensures CreditNonNegative(ApplyPay(l, req, env).data)
  {
  }

  /** A move keeps every card's available credit non-negative exactly when it does not cut a limit below what is used:
      the domain code has no such check, only the table does. */
  lemma LimitCutExactly(l: Ledger, m: Move)
    requires CreditNonNegative(l)
    ensures CreditNonNegative(Next(l, m)) <==> !CutsLimit(l, m)
  {
    if m.Call? {
      match m.req {
        case UpdateCreditCard(_, _, _) => CreditUpdate(l, m.req, m.env);
        case PayInvoice(_, _, _) => CreditPay(l, m.req, m.env);
        case AddTransaction(_, _, _, _, _, _, _) =>
          var t := ResolveTarget(l, m.req, m.env);
          if t.Ok? { CreditCharge(l, t.value, m.req, m.env); }
        case _ =>
      }
    }
  }

  ghost predicate WithinLimits(l: Ledger) {
    forall c {:trigger Outstanding(l.invoices, c)} :: c in l.cards ==>
      0 <= Outstanding(l.invoices, c) <= l.cards[c].limit
  }

  lemma CoveredIsWithin(l: Ledger)
    requires Inv(l)
    ensures WithinLimits(l) <==> CreditNonNegative(l)
  {
    forall c | c in l.cards ensures l.cards[c].limit - l.cards[c].available == Outstanding(l.invoices, c) >= 0 {
      OutstandingNonNegative(l, c);
    }
  }

  ghost predicate AlwaysWithinLimits(l: Ledger, moves: seq<Move>)
    decreases |moves|
  {
    WithinLimits(l) && (moves != [] ==> AlwaysWithinLimits(Next(l, moves[0]), moves[1..]))
  }

  predicate NeverCutsLimit(l: Ledger, moves: seq<Move>)
    decreases |moves|
  {
    moves != [] ==> !CutsLimit(l, moves[0]) && NeverCutsLimit(Next(l, moves[0]), moves[1..])
  }

  /** Over a whole history no card ever owes more than its limit exactly when no update cuts one below what is used. */
  lemma {:induction false} OverLimitExactly(l: Ledger, moves: seq<Move>)
    requires Inv(l) && WithinLimits(l)
    ensures AlwaysWithinLimits(l, moves) <==> NeverCutsLimit(l, moves)
    decreases |moves|
  {
    if moves != [] {
      var l' := Next(l, moves[0]);
      NextKeeps(l, moves[0]);
      CoveredIsWithin(l);
      CoveredIsWithin(l');
      LimitCutExactly(l, moves[0]);
      if WithinLimits(l') { OverLimitExactly(l', moves[1..]); }
    }
  }

  /** With the CHECK constraints enforced in every call that never happens. */
  lemma {:induction false} NeverOverLimit(l: Ledger, moves: seq<Move>)
    requires Inv(l) && WithinLimits(l)
    requires forall k :: 0 <= k < |moves| && moves[k].Call? ==> moves[k].env.constraints
    ensures AlwaysWithinLimits(l, moves)
  {
    ConstraintsPreventCuts(l, moves);
    OverLimitExactly(l, moves);
  }

  lemma {:induction false} ConstraintsPreventCuts(l: Ledger, moves: seq<Move>)
    requires forall k :: 0 <= k < |moves| && moves[k].Call? ==> moves[k].env.constraints
    ensures NeverCutsLimit(l, moves)
    decreases |moves|
  {
    if moves != [] {
      forall k | 0 <= k < |moves[1..]| && moves[1..][k].Call? ensures moves[1..][k].env.constraints {
        assert moves[1..][k] == moves[k + 1];
      }
      ConstraintsPreventCuts(Next(l, moves[0]), moves[1..]);
    }
  }
}
