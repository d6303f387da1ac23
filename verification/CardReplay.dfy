/** Rebuilding the money from the outbox: folding the events in commit order gives back every card's limit,
    available credit and liveness and every invoice's total and paid amount. */
module CardReplay {
  import opened CardEntities
  import opened CardLedger
  import opened CardConservation

  datatype CardView = CardView(user: string, name: string, limit: int, available: int, active: bool, live: bool)
  datatype InvoiceView = InvoiceView(card: string, user: string, total: int, paid: int)
  datatype View = View(cards: map<string, CardView>, invoices: map<string, InvoiceView>)

  /** What a consumer keeps after one event. An invoice it has never heard of starts at zero (rollover
      invoices get no creation event); a delete counts only for the card's own user (the service also emits
      it when it deleted nothing). */
  function Consume(v: View, e: Event): View {
    match e
    case CardCreated(id, user, name, _, _, _, limit) =>
      v.(cards := v.cards[id := CardView(user, name, limit, limit, true, true)])
    case CardUpdated(id, _, name, active, available, limit) =>
      if id in v.cards
      then v.(cards := v.cards[id := v.cards[id].(name := name, active := active, available := available,
                                                  limit := limit)])
      else v
    case CardDeleted(id, user) =>
      if id in v.cards && v.cards[id].user == user then v.(cards := v.cards[id := v.cards[id].(live := false)]) else v
    case InvoiceCreated(id, user, card, _, total, _, _) =>
      v.(invoices := v.invoices[id := InvoiceView(card, user, total, 0)])
    case InvoicePaid(id, _, card, amount, _, _, _) =>
      if id in v.invoices
      then Credit(v, card, amount).(invoices := v.invoices[id := v.invoices[id].(paid := v.invoices[id].paid + amount)])
      else v
    case TransactionAdded(_, user, invoice, card, _, amount, _, _, _) =>
      var before := if invoice in v.invoices then v.invoices[invoice] else InvoiceView(card, user, 0, 0);
      Credit(v, card, -amount).(invoices := v.invoices[invoice := before.(total := before.total + amount)])
  }

  function Credit(v: View, card: string, amount: int): View {
    if card !in v.cards then v
    else
      var c := v.cards[card];
      v.(cards := v.cards[card := c.(available := c.available + amount)])
  }

  function Replay(events: seq<Event>): View {
    if events == [] then View(map[], map[])
    else Consume(Replay(events[..|events| - 1]), events[|events| - 1])
  }

  function CardViewOf(c: Card): CardView {
    CardView(c.user, c.name, c.limit, c.available, c.active, !c.deleted)
  }

  function InvoiceViewOf(inv: Invoice): InvoiceView {
    InvoiceView(inv.card, inv.user, inv.total, inv.paid)
  }

  function CardViews(cards: map<string, Card>): map<string, CardView> {
    map c | c in cards :: CardViewOf(cards[c])
  }

  function InvoiceViews(invoices: map<string, Invoice>): map<string, InvoiceView> {
    map i | i in invoices :: InvoiceViewOf(invoices[i])
  }

  function ViewOf(l: Ledger): View {
    View(CardViews(l.cards), InvoiceViews(l.invoices))
  }

  lemma CardViewsPut(cards: map<string, Card>, c: string, card: Card)
    ensures CardViews(cards[c := card]) == CardViews(cards)[c := CardViewOf(card)]
  {
  }

  lemma InvoiceViewsPut(invoices: map<string, Invoice>, i: string, inv: Invoice)
    ensures InvoiceViews(invoices[i := inv]) == InvoiceViews(invoices)[i := InvoiceViewOf(inv)]
  {
  }

  lemma ReplaySnoc(events: seq<Event>, e: Event)
    ensures Replay(events + [e]) == Consume(Replay(events), e)
  {
    assert (events + [e])[..|events|] == events;
  }

  /** The outbox tells the whole story of the rows. */
  predicate Told(l: Ledger) {
    Replay(l.outbox) == ViewOf(l)
  }

  /** A committed request appends one event, and consuming it must move the view exactly as the rows moved. */
  lemma ToldByOne(l: Ledger, l': Ledger, e: Event)
    requires Told(l) && l'.outbox == l.outbox + [e]
    requires Consume(ViewOf(l), e).cards == ViewOf(l').cards && Consume(ViewOf(l), e).invoices == ViewOf(l').invoices
    ensures Told(l')
  {
    ReplaySnoc(l.outbox, e);
  }

  lemma CreateCardTells(l: Ledger, req: Request, env: Env)
    requires Told(l) && req.CreateCreditCard?
    ensures Told(ApplyCreateCard(l, req, env).data)
  {
    var out := ApplyCreateCard(l, req, env);
    if out.result.Ok? { ToldByOne(l, out.data, out.data.outbox[|l.outbox|]); }
  }

  lemma DeleteCardTells(l: Ledger, req: Request, env: Env)
    requires Told(l) && req.DeleteCreditCard?
    ensures Told(ApplyDeleteCard(l, req, env).data)
  {
    var out := ApplyDeleteCard(l, req, env);
    if out.result.Ok? { ToldByOne(l, out.data, out.data.outbox[|l.outbox|]); }
  }

  lemma UpdateTells(l: Ledger, req: Request, env: Env)
    requires Told(l) && req.UpdateCreditCard?
    ensures Told(ApplyUpdateCard(l, req, env).data)
  {
    var out := ApplyUpdateCard(l, req, env);
    if out.result.Ok? { ToldByOne(l, out.data, out.data.outbox[|l.outbox|]); }
  }

  lemma CreateInvoiceTells(l: Ledger, req: Request, env: Env)
    requires Told(l) && req.CreateInvoice?
    ensures Told(ApplyCreateInvoice(l, req, env).data)
  {
    var out := ApplyCreateInvoice(l, req, env);
    if out.result.Ok? { ToldByOne(l, out.data, out.data.outbox[|l.outbox|]); }
  }

  /** What a consumer makes of a payment event. */
  lemma PaymentConsumed(l: Ledger, inv: Invoice, c: Card, e: Event)
    requires e.InvoicePaid? && e.id in l.invoices && l.invoices[e.id] == inv && e.card == inv.card
    requires inv.card in l.cards && l.cards[inv.card] == c
    ensures
      Consume(ViewOf(l), e)
      == View(CardViews(l.cards[inv.card := c.(available := c.available + e.amount)]),
              InvoiceViews(l.invoices[e.id := PaidDown(inv, e.amount)]))
  {
    CardViewsPut(l.cards, inv.card, c.(available := c.available + e.amount));
    InvoiceViewsPut(l.invoices, e.id, PaidDown(inv, e.amount));
  }

  lemma PayTells(l: Ledger, req: Request, env: Env)
    requires Inv(l) && Told(l) && req.PayInvoice?
    ensures Told(ApplyPay(l, req, env).data)
  {
    var out := ApplyPay(l, req, env);
    if out.result.Ok? {
      var inv, e := l.invoices[req.id], out.data.outbox[|l.outbox|];
      CapNeverFires(l, req.id, req.amount);
      PaymentConsumed(l, inv, l.cards[inv.card], e);
      ReplaySnoc(l.outbox, e);
    }
  }

  /** What a consumer makes of a transaction event. */
  lemma ChargeConsumed(l: Ledger, t: Target, user: string, c: Card, e: Event)
    requires TargetOk(l, t, user) && (t.isNew ==> t.id !in l.invoices)
    requires t.invoice.card in l.cards && l.cards[t.invoice.card] == c
    requires e.TransactionAdded? && e.invoice == t.id && e.user == user && e.card == t.invoice.card
    ensures
      Consume(ViewOf(l), e)
      == View(CardViews(l.cards[t.invoice.card := c.(available := c.available - e.amount)]),
              InvoiceViews(l.invoices[t.id := Charged(t.invoice, e.amount)]))
  {
    CardViewsPut(l.cards, t.invoice.card, c.(available := c.available - e.amount));
    InvoiceViewsPut(l.invoices, t.id, Charged(t.invoice, e.amount));
  }

  lemma ChargeTells(l: Ledger, t: Target, req: Request, env: Env)
    requires Told(l) && req.AddTransaction? && TargetOk(l, t, req.user)
    ensures Told(ChargeTo(l, t, req, env).data)
  {
    var out := ChargeTo(l, t, req, env);
    if out.result.Ok? {
      var e := out.data.outbox[|l.outbox|];
      ChargeConsumed(l, t, req.user, l.cards[t.invoice.card], e);
      ReplaySnoc(l.outbox, e);
    }
  }

  lemma TransitionTells(l: Ledger, id: string, to: Status)
    requires Told(l)
    ensures Told(ApplyTransition(l, id, to))
  {
    assert ViewOf(ApplyTransition(l, id, to)) == ViewOf(l);
  }

  lemma ReplayNext(l: Ledger, m: Move)
    requires Inv(l) && Told(l)
    ensures Told(Next(l, m))
  {
    match m
    case Transition(id, to) => TransitionTells(l, id, to);
    case Call(req, env) =>
      match req {
        case CreateCreditCard(_, _, _, _, _, _, _, _) => CreateCardTells(l, req, env);
        case DeleteCreditCard(_, _) => DeleteCardTells(l, req, env);
        case UpdateCreditCard(_, _, _) => UpdateTells(l, req, env);
        case CreateInvoice(_, _, _, _, _) => CreateInvoiceTells(l, req, env);
        case PayInvoice(_, _, _) => PayTells(l, req, env);
        case AddTransaction(_, _, _, _, _, _, _) =>
          if ResolveTarget(l, req, env).Ok? {
            TargetShape(l, req, env);
            ChargeTells(l, ResolveTarget(l, req, env).value, req, env);
          }
      }
  }

  /** After any serial history from the empty database, replaying the outbox rebuilds the view of all cards and
      invoices, including invoices created by rollover without an event of their own. */
  lemma {:induction false} ReplayRebuilds(l: Ledger, moves: seq<Move>)
    requires Inv(l) && Told(l)
    ensures Told(Run(l, moves))
    decreases |moves|
  {
    if moves != [] {
      NextKeeps(l, moves[0]);
      ReplayNext(l, moves[0]);
      ReplayRebuilds(Next(l, moves[0]), moves[1..]);
    }
  }

  lemma ReplayFromEmpty(moves: seq<Move>)
    ensures Replay(Run(EMPTY_LEDGER, moves).outbox) == ViewOf(Run(EMPTY_LEDGER, moves))
  {
    ReplayRebuilds(EMPTY_LEDGER, moves);
  }
}
