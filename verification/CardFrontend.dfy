/** The credit-card service around its database: the read caches and the order of their effects, under keys. */
module CardFrontend {
  import opened Common
  import opened CardEntities
  import opened CardLedger
  import Idempotency

  /** A cached card remembers, for bookkeeping only, how many events were committed when it was cached. */
  datatype CachedCard = CachedCard(card: Card, stamp: nat)

  /** Cache keys are (user, id) pairs: ids and users are UUIDs, so the source's colon-separated keys are as distinct. */
  datatype Tables = Tables(
    db: Ledger, cardCache: map<(string, string), CachedCard>, invoiceCache: map<(string, string), Invoice>)

  /** Requests and reads, cache entries expiring (or failing to be set), and status moves made outside the service. */
  datatype Action =
    | Write(req: Request, env: Env)
    | GetCreditCard(id: string, user: string)
    | GetInvoice(id: string, user: string)
    | EvictCard(id: string, user: string)
    | EvictInvoice(id: string, user: string)
    | Outside(id: string, to: Status)

  type Effects = Outcome<Tables, Response, Error>

  /** The cache entries a successful request deletes. */
  function StaleCard(req: Request, resp: Response): set<(string, string)> {
    match req
    case UpdateCreditCard(id, user, _) => {(user, id)}
    case CreateInvoice(card, user, _, _, _) => {(user, card)}
    case PayInvoice(_, user, _) => if resp.InvoiceResponse? then {(user, resp.invoice.card)} else {}
    case _ => {}
  }

  function StaleInvoice(req: Request, resp: Response): set<(string, string)> {
    match req
    case PayInvoice(id, user, _) => {(user, id)}
    case AddTransaction(_, user, _, _, _, _, _) => if resp.TransactionResponse? then {(user, resp.txn.invoice)} else {}
    case _ => {}
  }

  /** After the transaction: on success the stale cache entries go. */
  function Settle(t: Tables, req: Request, out: Effect): Effects {
    match out.result
    case Err(e) => Outcome(t, Err(e))
    case Ok(resp) =>
      Outcome(Tables(out.data, t.cardCache - StaleCard(req, resp), t.invoiceCache - StaleInvoice(req, resp)), Ok(resp))
  }

  /** A delete drops the card's cache entry first. */
  function ServeWrite(t: Tables, req: Request, env: Env): Effects {
    var t1 := if req.DeleteCreditCard? then t.(cardCache := t.cardCache - {(req.user, req.id)}) else t;
    Settle(t1, req, Apply(t.db, req, env))
  }

  function ReadCard(t: Tables, id: string, user: string): Effects {
    if (user, id) in t.cardCache then Outcome(t, Ok(CardResponse(id, t.cardCache[(user, id)].card)))
    else match FindCard(t.db, id, user)
      case None => Outcome(t, Err(NotFound))
      case Some(c) =>
        Outcome(t.(cardCache := t.cardCache[(user, id) := CachedCard(c, |t.db.outbox|)]), Ok(CardResponse(id, c)))
  }

  function ReadInvoice(t: Tables, id: string, user: string): Effects {
    if (user, id) in t.invoiceCache then Outcome(t, Ok(InvoiceResponse(id, t.invoiceCache[(user, id)])))
    else match FindInvoice(t.db, id, user)
      case None => Outcome(t, Err(NotFound))
      case Some(inv) =>
        Outcome(t.(invoiceCache := t.invoiceCache[(user, id) := inv]), Ok(InvoiceResponse(id, inv)))
  }

  function Serve(t: Tables, a: Action): Effects {
    match a
    case Write(req, env) => ServeWrite(t, req, env)
    case GetCreditCard(id, user) => ReadCard(t, id, user)
    case GetInvoice(id, user) => ReadInvoice(t, id, user)
    case EvictCard(id, user) => Outcome(t.(cardCache := t.cardCache - {(user, id)}), Ok(NoContent))
    case EvictInvoice(id, user) => Outcome(t.(invoiceCache := t.invoiceCache - {(user, id)}), Ok(NoContent))
    case Outside(id, to) => Outcome(t.(db := ApplyTransition(t.db, id, to)), Ok(NoContent))
  }

  type Keyed = Idempotency.Keyed<Action>

  type Step = Idempotency.Step<Action>

  type State = Idempotency.Store<Tables, Response>

  const EMPTY_STATE: State := Idempotency.Store(Tables(EMPTY_LEDGER, map[], map[]), map[])
}
