/** What every request keeps: each card's used credit is exactly what its invoices still owe. */
module CardConservation {
  import opened Common
  import opened MapSums
  import opened CardEntities
  import opened CardLedger

  // ---------------------------------------------------------------- the two sums

  function OwedBy(invoices: map<string, Invoice>, card: string): map<string, int> {
    map i | i in invoices && invoices[i].card == card :: invoices[i].total - invoices[i].paid
  }

  /** What the invoices of a card still owe. */
  ghost function Outstanding(invoices: map<string, Invoice>, card: string): int {
    Sum(OwedBy(invoices, card))
  }

  function ChargesOn(txns: map<string, Txn>, invoice: string): map<string, int> {
    map t | t in txns && txns[t].invoice == invoice :: txns[t].amount
  }

  /** The sum of the transactions recorded against an invoice. */
  ghost function Recorded(txns: map<string, Txn>, invoice: string): int {
    Sum(ChargesOn(txns, invoice))
  }

  /** Writing an invoice row moves only its own card's outstanding sum. */
  lemma OutstandingPut(invoices: map<string, Invoice>, i: string, inv: Invoice, card: string)
    requires i in invoices ==> invoices[i].card == inv.card
    ensures Outstanding(invoices[i := inv], card) == Outstanding(invoices, card)
      + (if inv.card != card then 0
         else inv.total - inv.paid - (if i in invoices then invoices[i].total - invoices[i].paid else 0))
  {
    var before := OwedBy(invoices, card);
    if inv.card == card {
      assert OwedBy(invoices[i := inv], card) == before[i := inv.total - inv.paid];
      SumPut(before, i, inv.total - inv.paid);
    } else {
      assert OwedBy(invoices[i := inv], card) == before;
    }
  }

  lemma RecordedPut(txns: map<string, Txn>, t: string, tx: Txn, invoice: string)
    requires t !in txns
    ensures Recorded(txns[t := tx], invoice)
      == Recorded(txns, invoice) + (if tx.invoice == invoice then tx.amount else 0)
  {
    var before := ChargesOn(txns, invoice);
    if tx.invoice == invoice {
      assert ChargesOn(txns[t := tx], invoice) == before[t := tx.amount];
      SumPut(before, t, tx.amount);
    } else {
      assert ChargesOn(txns[t := tx], invoice) == before;
    }
  }

  // ---------------------------------------------------------------- the invariant

  predicate InvoiceOk(l: Ledger, i: string)
    requires i in l.invoices
  {
    var inv := l.invoices[i];
    inv.card in l.cards && inv.user == l.cards[inv.card].user && 0 <= inv.paid <= inv.total
  }

  ghost predicate Inv(l: Ledger) {
    && (forall i {:trigger InvoiceOk(l, i)} :: i in l.invoices ==> InvoiceOk(l, i))
    && (forall t :: t in l.txns ==> l.txns[t].invoice in l.invoices && l.txns[t].amount > 0)
    && (forall i {:trigger Recorded(l.txns, i)} :: i in l.invoices ==> l.invoices[i].total == Recorded(l.txns, i))
    && (forall c {:trigger Outstanding(l.invoices, c)} :: c in l.cards ==>
          l.cards[c].limit - l.cards[c].available == Outstanding(l.invoices, c))
  }

  lemma OutstandingNonNegative(l: Ledger, card: string)
    requires Inv(l)
    ensures Outstanding(l.invoices, card) >= 0
  {
    forall i | i in OwedBy(l.invoices, card) ensures OwedBy(l.invoices, card)[i] >= 0 { assert InvoiceOk(l, i); }
    SumNonNegative(OwedBy(l.invoices, card));
  }

  /** The cap in PayInvoice never changes a value: what is paid was used before. */
  lemma CapNeverFires(l: Ledger, i: string, amount: int)
    requires Inv(l) && i in l.invoices && PayError(l.invoices[i], amount) == None
    ensures l.invoices[i].card in l.cards
    ensures
      var c := l.cards[l.invoices[i].card];
      c.available + amount <= c.limit && Restored(c, amount) == c.(available := c.available + amount)
  {
    var inv := l.invoices[i];
    assert InvoiceOk(l, i);
    var owed := OwedBy(l.invoices, inv.card);
    forall j | j in owed ensures owed[j] >= 0 { assert InvoiceOk(l, j); }
    SumAtLeast(owed, i);
    assert Outstanding(l.invoices, inv.card) == Sum(owed);
  }

  // ---------------------------------------------------------------- each request keeps it

  lemma CardsKeep(l: Ledger, l': Ledger, c: string, card: Card)
    requires Inv(l)
    requires l'.cards == l.cards[c := card] && l'.invoices == l.invoices && l'.txns == l.txns
    requires c in l.cards ==> card.user == l.cards[c].user
    requires card.limit - card.available == Outstanding(l.invoices, c)
    ensures Inv(l')
  {
    forall i | i in l'.invoices ensures InvoiceOk(l', i) { assert InvoiceOk(l, i); }
  }

  lemma CreateCardKeeps(l: Ledger, req: Request, env: Env)
    requires Inv(l) && req.CreateCreditCard?
    ensures Inv(Apply(l, req, env).data)
  {
    var out := ApplyCreateCard(l, req, env);
    if out.result.Ok? {
      assert OwedBy(l.invoices, env.newId) == map[] by {
        forall i | i in l.invoices ensures l.invoices[i].card != env.newId { assert InvoiceOk(l, i); }
      }
      CardsKeep(l, out.data, env.newId, out.result.value.card);
    }
  }

  lemma UpdateCardKeeps(l: Ledger, req: Request, env: Env)
    requires Inv(l) && req.UpdateCreditCard?
    ensures Inv(Apply(l, req, env).data)
  {
    var out := ApplyUpdateCard(l, req, env);
    if out.result.Ok? {
      CardsKeep(l, out.data, req.id, out.result.value.card);
    }
  }

  lemma DeleteCardKeeps(l: Ledger, req: Request, env: Env)
    requires Inv(l) && req.DeleteCreditCard?
    ensures Inv(Apply(l, req, env).data)
  {
    var out := ApplyDeleteCard(l, req, env);
    if out.result.Ok? {
      if FindCard(l, req.id, req.user).Some? {
        CardsKeep(l, out.data, req.id, l.cards[req.id].(deleted := true));
      } else {
        forall i | i in l.invoices ensures InvoiceOk(out.data, i) { assert InvoiceOk(l, i); }
      }
    }
  }

  lemma CreateInvoiceKeeps(l: Ledger, req: Request, env: Env)
    requires Inv(l) && req.CreateInvoice?
    ensures Inv(Apply(l, req, env).data)
  {
    var out := ApplyCreateInvoice(l, req, env);
    if out.result.Ok? {
      var l', inv := out.data, out.result.value.invoice;
      NoChargesYet(l, env.newId);
      forall i | i in l'.invoices ensures InvoiceOk(l', i) { assert i != env.newId ==> InvoiceOk(l, i); }
      forall c | c in l'.cards ensures l'.cards[c].limit - l'.cards[c].available == Outstanding(l'.invoices, c) {
        OutstandingPut(l.invoices, env.newId, inv, c);
      }
    }
  }

  lemma NoChargesYet(l: Ledger, i: string)
    requires Inv(l) && i !in l.invoices
    ensures Recorded(l.txns, i) == 0
  {
    assert ChargesOn(l.txns, i) == map[];
  }

  function Owed(invoices: map<string, Invoice>, i: string): int {
    if i in invoices then invoices[i].total - invoices[i].paid else 0
  }

  /** One invoice row and its card row written together: the invariant survives when the card's used credit
      moves by what the invoice owes more or less, and the invoice total by the charge recorded. */
  lemma RowsKeep(l: Ledger, l': Ledger, i: string, inv: Invoice, card: Card, charge: int)
    requires Inv(l)
    requires i in l.invoices ==> inv.card == l.invoices[i].card
    requires inv.card in l.cards && inv.user == card.user == l.cards[inv.card].user
    requires 0 <= inv.paid <= inv.total
    requires inv.total == Recorded(l.txns, i) + charge
    requires card.limit - card.available
      == l.cards[inv.card].limit - l.cards[inv.card].available + inv.total - inv.paid - Owed(l.invoices, i)
    requires l'.cards == l.cards[inv.card := card] && l'.invoices == l.invoices[i := inv]
    requires forall t :: t in l'.txns ==> l'.txns[t].invoice in l'.invoices && l'.txns[t].amount > 0
    requires forall j :: Recorded(l'.txns, j) == Recorded(l.txns, j) + (if j == i then charge else 0)
    ensures Inv(l')
  {
    forall j | j in l'.invoices ensures InvoiceOk(l', j) { assert j != i ==> InvoiceOk(l, j); }
    forall c | c in l'.cards ensures l'.cards[c].limit - l'.cards[c].available == Outstanding(l'.invoices, c) {
      OutstandingPut(l.invoices, i, inv, c);
    }
  }

  lemma PayKeeps(l: Ledger, req: Request, env: Env)
    requires Inv(l) && req.PayInvoice?
    ensures Inv(Apply(l, req, env).data)
  {
    var out := ApplyPay(l, req, env);
    if out.result.Ok? {
      var inv := l.invoices[req.id];
      CapNeverFires(l, req.id, req.amount);
      assert InvoiceOk(l, req.id);
      RowsKeep(l, out.data, req.id, PaidDown(inv, req.amount), Restored(l.cards[inv.card], req.amount), 0);
    }
  }

  /** A target is a stored invoice of the user's own card, or a blank one for a new row. */
  predicate TargetOk(l: Ledger, t: Target, user: string) {
    && t.invoice.user == user
    && (if t.isNew then t.invoice.total == t.invoice.paid == 0 else t.id in l.invoices && t.invoice == l.invoices[t.id])
  }

  lemma TargetShape(l: Ledger, req: Request, env: Env)
    requires Inv(l) && req.AddTransaction? && ResolveTarget(l, req, env).Ok?
    ensures TargetOk(l, ResolveTarget(l, req, env).value, req.user)
  {
    var t := ResolveTarget(l, req, env).value;
    assert InvoiceOk(l, req.invoice);
    if !t.isNew { assert InvoiceOk(l, t.id); }
  }

  lemma ChargeKeeps(l: Ledger, t: Target, req: Request, env: Env)
    requires Inv(l) && req.AddTransaction? && TargetOk(l, t, req.user)
    ensures Inv(ChargeTo(l, t, req, env).data)
  {
    var out := ChargeTo(l, t, req, env);
    if out.result.Ok? {
      var l', tx := out.data, out.result.value.txn;
      if t.isNew { NoChargesYet(l, t.id); } else { assert InvoiceOk(l, t.id); }
      forall j ensures Recorded(l'.txns, j) == Recorded(l.txns, j) + (if j == t.id then req.amount else 0) {
        RecordedPut(l.txns, env.newId, tx, j);
      }
      var c := l.cards[t.invoice.card];
      RowsKeep(l, l', t.id, Charged(t.invoice, req.amount), c.(available := c.available - req.amount), req.amount);
    }
  }

  lemma AddTransactionKeeps(l: Ledger, req: Request, env: Env)
    requires Inv(l) && req.AddTransaction?
    ensures Inv(ApplyAddTransaction(l, req, env).data)
  {
    if ResolveTarget(l, req, env).Ok? {
      TargetShape(l, req, env);
      ChargeKeeps(l, ResolveTarget(l, req, env).value, req, env);
    }
  }

  lemma TransitionKeeps(l: Ledger, id: string, to: Status)
    requires Inv(l)
    ensures Inv(ApplyTransition(l, id, to))
  {
    var l' := ApplyTransition(l, id, to);
    if l' != l {
      forall i | i in l'.invoices ensures InvoiceOk(l', i) { assert InvoiceOk(l, i); }
      forall c ensures Outstanding(l'.invoices, c) == Outstanding(l.invoices, c) {
        OutstandingPut(l.invoices, id, l'.invoices[id], c);
      }
    }
  }

  lemma NextKeeps(l: Ledger, m: Move)
    requires Inv(l)
    ensures Inv(Next(l, m))
  {
    match m
    case Transition(id, to) => TransitionKeeps(l, id, to);
    case Call(req, env) =>
      match req {
        case CreateCreditCard(_, _, _, _, _, _, _, _) => CreateCardKeeps(l, req, env);
        case UpdateCreditCard(_, _, _) => UpdateCardKeeps(l, req, env);
        case DeleteCreditCard(_, _) => DeleteCardKeeps(l, req, env);
        case CreateInvoice(_, _, _, _, _) => CreateInvoiceKeeps(l, req, env);
        case PayInvoice(_, _, _) => PayKeeps(l, req, env);
        case AddTransaction(_, _, _, _, _, _, _) => AddTransactionKeeps(l, req, env);
      }
  }

  lemma {:induction false} RunKeeps(l: Ledger, moves: seq<Move>)
    requires Inv(l)
    ensures Inv(Run(l, moves))
    decreases |moves|
  {
    if moves != [] {
      NextKeeps(l, moves[0]);
      RunKeeps(Next(l, moves[0]), moves[1..]);
    }
  }

  /** After any serial history: used credit is what the card's invoices owe, so it is never negative and
      available credit never exceeds the limit; every invoice totals the charges recorded on it and is paid
      at most in full; and every row points at an existing owner. */
  lemma LedgerBalances(moves: seq<Move>)
    ensures
      var l := Run(EMPTY_LEDGER, moves);
      && (forall c {:trigger l.cards[c]} :: c in l.cards ==>
            && l.cards[c].limit - l.cards[c].available == Outstanding(l.invoices, c)
            && l.cards[c].available <= l.cards[c].limit)
      && (forall i {:trigger l.invoices[i]} :: i in l.invoices ==>
            && l.invoices[i].total == Recorded(l.txns, i)
            && 0 <= l.invoices[i].paid <= l.invoices[i].total
            && l.invoices[i].card in l.cards && l.invoices[i].user == l.cards[l.invoices[i].card].user)
      && (forall t :: t in l.txns ==> l.txns[t].invoice in l.invoices)
  {
    RunKeeps(EMPTY_LEDGER, moves);
    var l := Run(EMPTY_LEDGER, moves);
    forall c | c in l.cards
      ensures l.cards[c].limit - l.cards[c].available == Outstanding(l.invoices, c) >= 0
    {
      OutstandingNonNegative(l, c);
    }
    forall i | i in l.invoices ensures InvoiceOk(l, i) && l.invoices[i].total == Recorded(l.txns, i) {}
  }
}
