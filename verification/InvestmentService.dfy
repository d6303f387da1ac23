/** Creating, editing and deleting investments and recording transactions on them (investment-svc application): the
    database as a step function, with idempotency keys around it and two read caches beside it. */
module InvestmentService {
  import opened Common
  import opened Investment
  import Idempotency

  datatype Kind = BuyTx | SellTx | Dividend | Jcp | Amortization

  datatype Tx = Tx(investment: string, user: string, kind: Kind, quantity: int, unitPrice: int, total: int,
                   date: string)

  datatype Event =
    | InvestmentCreated(id: string, user: string, quantity: int, averagePrice: int, totalInvested: int)
    | InvestmentUpdated(id: string, user: string, name: string, ticker: string, status: Status, quantity: int,
                        averagePrice: int, totalInvested: int)
    | InvestmentDeleted(id: string, user: string)
    | TransactionRecorded(id: string, user: string, txId: string, kind: Kind, quantity: int, unitPrice: int, total: int)

  datatype Ledger = Ledger(holdings: map<string, Holding>, txs: map<string, Tx>, outbox: seq<Event>)

  const EMPTY_LEDGER := Ledger(map[], map[], [])

  datatype Request =
    | CreateInvestment(user: string, name: string, ticker: string, assetType: string, quantity: int, averagePrice: int,
                       broker: string, status: Status)
    | UpdateInvestment(id: string, user: string, change: InvestmentUpdate)
    | DeleteInvestment(id: string, user: string)
    | RecordTransaction(user: string, investment: string, kind: Kind, quantity: int, unitPrice: int, date: string)

  /** The generated id, the write the database refuses if any, and whether its CHECK constraints are enforced. */
  datatype Env = Env(newId: string, fault: nat, constraints: bool)

  datatype Response =
    | InvestmentResponse(id: string, holding: Holding)
    | TransactionResponse(id: string, tx: Tx)
    | PortfolioResponse(holdings: map<string, Holding>)
    | NoContent

  type Effect = Outcome<Ledger, Response, Error>

  // ---------------------------------------------------------------- the database

  function Fail(l: Ledger, e: Error): Effect {
    Outcome(l, Err(e))
  }

  function FindHolding(l: Ledger, id: string, user: string): Option<Holding> {
    if id in l.holdings && l.holdings[id].user == user && !l.holdings[id].deleted then Some(l.holdings[id]) else None
  }

  function ApplyCreate(l: Ledger, req: Request, env: Env): Effect
    requires req.CreateInvestment?
  {
    if !ValidAssetType(req.assetType) then Fail(l, InvalidAssetType)
    else if req.user == "" || req.name == "" || req.ticker == "" then Fail(l, MissingField)
    else match NewPosition(req.quantity, req.averagePrice, req.status)
      case Err(e) => Fail(l, e)
      case Ok(p) =>
        if env.newId in l.holdings || 1 <= env.fault <= 3 then Fail(l, StoreFailure)
        else
          var h := Holding(req.user, req.name, req.ticker, req.assetType, req.broker, p, false);
          Outcome(l.(holdings := l.holdings[env.newId := h],
                     outbox := l.outbox + [InvestmentCreated(env.newId, req.user, p.quantity, p.averagePrice,
                                                             p.totalInvested)]),
                  Ok(InvestmentResponse(env.newId, h)))
  }

  /** The delete touches a row only if it is live and the user's; the event is written either way. */
  function ApplyDelete(l: Ledger, req: Request, env: Env): Effect
    requires req.DeleteInvestment?
  {
    if 1 <= env.fault <= 3 then Fail(l, StoreFailure)
    else
      var holdings := match FindHolding(l, req.id, req.user)
                      case None => l.holdings
                      case Some(h) => l.holdings[req.id := h.(deleted := true)];
      Outcome(l.(holdings := holdings, outbox := l.outbox + [InvestmentDeleted(req.id, req.user)]), Ok(NoContent))
  }

  /** CHECK (quantity > 0) on investments. */
  predicate RowAccepted(env: Env, p: Position) {
    env.constraints ==> p.quantity > 0
  }

  /** The asset type is converted before anything else of the change is looked at. */
  function ChangeError(h: Holding, change: InvestmentUpdate): (e: Option<Error>)
    ensures e == None ==> UpdateError(h, change) == None
  {
    if change.assetType.Some? && !ValidAssetType(change.assetType.value) then Some(InvalidAssetType)
    else UpdateError(h, change)
  }

  function ApplyUpdateInvestment(l: Ledger, req: Request, env: Env): Effect
    requires req.UpdateInvestment?
  {
    match FindHolding(l, req.id, req.user)
    case None => Fail(l, NotFound)
    case Some(h) =>
      var change := req.change.(user := req.user);
      if ChangeError(h, change).Some? then Fail(l, ChangeError(h, change).value)
      else
        var h' := Updated(h, change);
        if !RowAccepted(env, h'.pos) || 1 <= env.fault <= 3 then Fail(l, StoreFailure)
        else
          Outcome(l.(holdings := l.holdings[req.id := h'],
                     outbox := l.outbox + [InvestmentUpdated(req.id, h'.user, h'.name, h'.ticker, h'.pos.status,
                                                             h'.pos.quantity, h'.pos.averagePrice,
                                                             h'.pos.totalInvested)]),
                  Ok(InvestmentResponse(req.id, h')))
  }

  predicate IsTrade(kind: Kind) {
    kind.BuyTx? || kind.SellTx?
  }

  function TradeOf(kind: Kind, quantity: int, unitPrice: int): Trade {
    if kind.BuyTx? then Buy(quantity, unitPrice) else Sell(quantity, unitPrice)
  }

  /** NewTransaction's validation. */
  function RecordError(req: Request): Option<Error>
    requires req.RecordTransaction?
  {
    if req.user == "" || req.investment == "" then Some(MissingField)
    else if req.quantity <= 0 then Some(InvalidQuantity)
    else if req.unitPrice < 0 then Some(InvalidPrice)
    else if req.date == "" then Some(MissingField)
    else None
  }

  function TxOf(req: Request): Tx
    requires req.RecordTransaction?
  {
    Tx(req.investment, req.user, req.kind, req.quantity, req.unitPrice, req.quantity * req.unitPrice, req.date)
  }

  /** The position a transaction of some kind leaves behind. */
  function AfterTx(p: Position, kind: Kind, quantity: int, unitPrice: int): Position {
    if IsTrade(kind) then ApplyTrade(p, TradeOf(kind, quantity, unitPrice)) else p
  }

  /** Income kinds leave the investment row alone, so they make one write less. */
  function ApplyRecord(l: Ledger, req: Request, env: Env): Effect
    requires req.RecordTransaction?
  {
    if RecordError(req).Some? then Fail(l, RecordError(req).value)
    else match FindHolding(l, req.investment, req.user)
      case None => Fail(l, NotFound)
      case Some(h) =>
        if req.kind.SellTx? && SellError(h.pos, req.quantity, req.unitPrice).Some? then
          Fail(l, SellError(h.pos, req.quantity, req.unitPrice).value)
        else
          var p, tx := AfterTx(h.pos, req.kind, req.quantity, req.unitPrice), TxOf(req);
          if (IsTrade(req.kind) && !RowAccepted(env, p)) || env.newId in l.txs
             || 1 <= env.fault <= (if IsTrade(req.kind) then 4 else 3)
          then Fail(l, StoreFailure)
          else
            Outcome(Ledger(l.holdings[req.investment := h.(pos := p)], l.txs[env.newId := tx],
                           l.outbox + [TransactionRecorded(tx.investment, tx.user, env.newId, tx.kind, tx.quantity,
                                                           tx.unitPrice, tx.total)]),
                    Ok(TransactionResponse(env.newId, tx)))
  }

  function Apply(l: Ledger, req: Request, env: Env): Effect {
    match req
    case CreateInvestment(_, _, _, _, _, _, _, _) => ApplyCreate(l, req, env)
    case UpdateInvestment(_, _, _) => ApplyUpdateInvestment(l, req, env)
    case DeleteInvestment(_, _) => ApplyDelete(l, req, env)
    case RecordTransaction(_, _, _, _, _, _) => ApplyRecord(l, req, env)
  }

  // ---------------------------------------------------------------- caches and keys

  /** `stamp` remembers, for bookkeeping only, how many events were committed when the entry was cached. */
  datatype Cached<T> = Cached(value: T, stamp: nat)

  /** Single investments are cached by user and id, portfolio summaries by user; a summary is represented by the
      holdings it was computed from. */
  datatype Tables = Tables(
    db: Ledger, holdings: map<(string, string), Cached<Holding>>, portfolios: map<string, Cached<map<string, Holding>>>)

  datatype Action =
    | Write(req: Request, env: Env)
    | GetInvestment(id: string, user: string)
    | GetPortfolio(user: string)
    | EvictInvestment(id: string, user: string)
    | EvictPortfolio(user: string)

  type Effects = Outcome<Tables, Response, Error>

  /** FindActiveByUser. */
  function ActiveOf(l: Ledger, user: string): map<string, Holding> {
    map i | i in l.holdings && l.holdings[i].user == user && l.holdings[i].pos.status == Active
      && !l.holdings[i].deleted
      :: l.holdings[i]
  }

  /** A delete drops the cached investment first, an update once it succeeded; a recorded transaction drops the cached
      portfolio, and nothing else. */
  function ServeWrite(t: Tables, req: Request, env: Env): Effects {
    var out := Apply(t.db, req, env);
    Outcome(Tables(out.data,
                   if req.DeleteInvestment? || (req.UpdateInvestment? && out.result.Ok?)
                   then t.holdings - {(req.user, req.id)} else t.holdings,
                   if req.RecordTransaction? && out.result.Ok? then t.portfolios - {req.user} else t.portfolios),
            out.result)
  }

  function ReadInvestment(t: Tables, id: string, user: string): Effects {
    if (user, id) in t.holdings then Outcome(t, Ok(InvestmentResponse(id, t.holdings[(user, id)].value)))
    else match FindHolding(t.db, id, user)
      case None => Outcome(t, Err(NotFound))
      case Some(h) =>
        Outcome(t.(holdings := t.holdings[(user, id) := Cached(h, |t.db.outbox|)]), Ok(InvestmentResponse(id, h)))
  }

  function ReadPortfolio(t: Tables, user: string): Effects {
    if user in t.portfolios then Outcome(t, Ok(PortfolioResponse(t.portfolios[user].value)))
    else
      var active := ActiveOf(t.db, user);
      Outcome(t.(portfolios := t.portfolios[user := Cached(active, |t.db.outbox|)]), Ok(PortfolioResponse(active)))
  }

  function Serve(t: Tables, a: Action): Effects {
    match a
    case Write(req, env) => ServeWrite(t, req, env)
    case GetInvestment(id, user) => ReadInvestment(t, id, user)
    case GetPortfolio(user) => ReadPortfolio(t, user)
    case EvictInvestment(id, user) => Outcome(t.(holdings := t.holdings - {(user, id)}), Ok(NoContent))
    case EvictPortfolio(user) => Outcome(t.(portfolios := t.portfolios - {user}), Ok(NoContent))
  }

  type Keyed = Idempotency.Keyed<Action>

  type State = Idempotency.Store<Tables, Response>

  const EMPTY_STATE: State := Idempotency.Store(Tables(EMPTY_LEDGER, map[], map[]), map[])

  // ---------------------------------------------------------------- the service as the source writes it

  class Service {
    var holdings: map<string, Holding>
    var txs: map<string, Tx>
    var outbox: seq<Event>
    var holdingCache: map<(string, string), Cached<Holding>>
    var portfolioCache: map<string, Cached<map<string, Holding>>>
    var responses: map<string, Response>

    function Db(): Ledger
      reads this
    {
      Ledger(holdings, txs, outbox)
    }

    function Snapshot(): State
      reads this
    {
      Idempotency.Store(Tables(Db(), holdingCache, portfolioCache), responses)
    }

    constructor ()
      ensures Snapshot() == EMPTY_STATE
    {
      holdings, txs, outbox, holdingCache, portfolioCache, responses := map[], map[], [], map[], map[], map[];
    }

    method Rollback(begin: Ledger)
      modifies this`holdings, this`txs, this`outbox
      ensures Db() == begin
    {
      holdings, txs, outbox := begin.holdings, begin.txs, begin.outbox;
    }

    method Remember(c: Keyed, resp: Response)
      modifies this`responses
      ensures responses
        == if c.key != "" && c.writable && c.key !in old(responses) then old(responses)[c.key := resp]
          else old(responses)
    {
      if c.key != "" && c.writable && c.key !in responses { // SETNX
        responses := responses[c.key := resp];
      }
    }

    /** CreateInvestment without its key. */
    method Create(req: Request, env: Env) returns (r: Result<Response, Error>)
      requires req.CreateInvestment?
      modifies this`holdings, this`txs, this`outbox
      ensures Outcome(Db(), r) == ApplyCreate(old(Db()), req, env)
    {
      if !ValidAssetType(req.assetType) { return Err(InvalidAssetType); }
      if req.user == "" || req.name == "" || req.ticker == "" { return Err(MissingField); }
      if req.quantity <= 0 { return Err(InvalidQuantity); }
      if req.averagePrice < 0 { return Err(InvalidPrice); }
      var pos := Position(req.quantity, req.averagePrice, req.quantity * req.averagePrice, req.status);
      var holding := Holding(req.user, req.name, req.ticker, req.assetType, req.broker, pos, false);
      var begin := Db();
      var failed := env.newId in holdings || env.fault == 1;
      if !failed {
        holdings := holdings[env.newId := holding];
        failed := env.fault == 2;
      }
      if !failed {
        outbox := outbox + [InvestmentCreated(env.newId, req.user, pos.quantity, pos.averagePrice, pos.totalInvested)];
        failed := env.fault == 3;
      }
      if failed {
        Rollback(begin);
        return Err(StoreFailure);
      }
      return Ok(InvestmentResponse(env.newId, holding));
    }

    method CreateInvestment(c: Keyed) returns (r: Result<Response, Error>)
      requires c.request.Write? && c.request.req.CreateInvestment?
      modifies this
      ensures Idempotency.Answer(Snapshot(), r) == Idempotency.Handle(Serve, old(Snapshot()), c)
    {
      if c.key != "" && c.readable && c.key in responses { return Ok(responses[c.key]); }
      r := Create(c.request.req, c.request.env);
      if r.Err? { return; }
      Remember(c, r.value);
    }

    /** UpdateInvestment without its key. */
    method Update(req: Request, env: Env) returns (r: Result<Response, Error>)
      requires req.UpdateInvestment?
      modifies this`holdings, this`txs, this`outbox
      ensures Outcome(Db(), r) == ApplyUpdateInvestment(old(Db()), req, env)
    {
      var found := FindHolding(Db(), req.id, req.user);
      if found.None? { return Err(NotFound); }
      if req.change.assetType.Some? && !ValidAssetType(req.change.assetType.value) { return Err(InvalidAssetType); }
      var investment := new InvestmentEntity(found.value);
      var err := investment.ApplyUpdate(req.change.(user := req.user));
      if err.Some? { return Err(err.value); }
      var row := investment.row;
      var begin := Db();
      var failed := !RowAccepted(env, row.pos) || env.fault == 1;
      if !failed {
        holdings := holdings[req.id := row];
        failed := env.fault == 2;
      }
      if !failed {
        outbox := outbox + [InvestmentUpdated(req.id, row.user, row.name, row.ticker, row.pos.status, row.pos.quantity,
                                              row.pos.averagePrice, row.pos.totalInvested)];
        failed := env.fault == 3;
      }
      if failed {
        Rollback(begin);
        return Err(StoreFailure);
      }
      return Ok(InvestmentResponse(req.id, row));
    }

    method UpdateInvestment(c: Keyed) returns (r: Result<Response, Error>)
      requires c.request.Write? && c.request.req.UpdateInvestment?
      modifies this
      ensures Idempotency.Answer(Snapshot(), r) == Idempotency.Handle(Serve, old(Snapshot()), c)
    {
      if c.key != "" && c.readable && c.key in responses { return Ok(responses[c.key]); }
      r := Update(c.request.req, c.request.env);
      if r.Err? { return; }
      Remember(c, r.value);
      holdingCache := holdingCache - {(c.request.req.user, c.request.req.id)};
    }

    /** Deletes take no key. */
    method DeleteInvestment(req: Request, env: Env) returns (r: Result<Response, Error>)
      requires req.DeleteInvestment?
      modifies this
      ensures
        Idempotency.Answer(Snapshot(), r)
        == Idempotency.Handle(Serve, old(Snapshot()), Idempotency.Keyed("", Write(req, env), true, true))
    {
      holdingCache := holdingCache - {(req.user, req.id)};
      var begin := Db();
      var failed := env.fault == 1;
      if !failed {
        if req.id in holdings && holdings[req.id].user == req.user && !holdings[req.id].deleted {
          holdings := holdings[req.id := holdings[req.id].(deleted := true)];
        }
        failed := env.fault == 2;
      }
      if !failed {
        outbox := outbox + [InvestmentDeleted(req.id, req.user)];
        failed := env.fault == 3;
      }
      if failed {
        Rollback(begin);
        return Err(StoreFailure);
      }
      return Ok(NoContent);
    }

    /** The transaction of RecordTransaction, write by write; on an error the caller rolls back. */
    method RecordTx(req: Request, tx: Tx, env: Env) returns (err: Option<Error>)
      requires req.RecordTransaction? && RecordError(req) == None && tx == TxOf(req)
      modifies this`holdings, this`txs, this`outbox
      ensures
        var out := ApplyRecord(old(Db()), req, env);
        if out.result.Ok? then err == None && Db() == out.data else err == Some(out.result.error)
    {
      var found := FindHolding(Db(), req.investment, req.user);
      if found.None? { return Some(NotFound); }
      var investment := new InvestmentEntity(found.value);
      var writes := 0;
      if req.kind.BuyTx? {
        investment.UpdateAveragePrice(req.quantity, req.unitPrice);
        writes := 1;
      } else if req.kind.SellTx? {
        var sellErr := investment.Sell(req.quantity, req.unitPrice);
        if sellErr.Some? { return sellErr; }
        writes := 1;
      }
      assert investment.row == found.value.(pos := AfterTx(found.value.pos, req.kind, req.quantity, req.unitPrice));
      if writes == 1 {
        if !RowAccepted(env, investment.row.pos) || env.fault == 1 { return Some(StoreFailure); }
        holdings := holdings[req.investment := investment.row];
      } else {
        assert holdings[req.investment := investment.row] == holdings;
      }
      if env.newId in txs || env.fault == writes + 1 { return Some(StoreFailure); }
      txs := txs[env.newId := tx];
      if env.fault == writes + 2 { return Some(StoreFailure); }
      outbox := outbox + [TransactionRecorded(tx.investment, tx.user, env.newId, tx.kind, tx.quantity,
                                              tx.unitPrice, tx.total)];
      if env.fault == writes + 3 { return Some(StoreFailure); }
      return None;
    }

    /** RecordTransaction without its key. */
    method Record(req: Request, env: Env) returns (r: Result<Response, Error>)
      requires req.RecordTransaction?
      modifies this`holdings, this`txs, this`outbox
      ensures Outcome(Db(), r) == ApplyRecord(old(Db()), req, env)
    {
      if req.user == "" || req.investment == "" { return Err(MissingField); }
      if req.quantity <= 0 { return Err(InvalidQuantity); }
      if req.unitPrice < 0 { return Err(InvalidPrice); }
      if req.date == "" { return Err(MissingField); }
      var tx := TxOf(req);
      var begin := Db();
      var err := RecordTx(req, tx, env);
      if err.Some? {
        Rollback(begin);
        return Err(err.value);
      }
      return Ok(TransactionResponse(env.newId, tx));
    }

    method RecordTransaction(c: Keyed) returns (r: Result<Response, Error>)
      requires c.request.Write? && c.request.req.RecordTransaction?
      modifies this
      ensures Idempotency.Answer(Snapshot(), r) == Idempotency.Handle(Serve, old(Snapshot()), c)
    {
      if c.key != "" && c.readable && c.key in responses { return Ok(responses[c.key]); }
      r := Record(c.request.req, c.request.env);
      if r.Err? { return; }
      Remember(c, r.value);
      portfolioCache := portfolioCache - {c.request.req.user};
    }

    method GetInvestment(id: string, user: string) returns (r: Result<Response, Error>)
      modifies this`holdingCache
      ensures
        Idempotency.Answer(Snapshot(), r)
        == Idempotency.Handle(Serve, old(Snapshot()), Idempotency.Keyed("", Action.GetInvestment(id, user), true, true))
    {
      if (user, id) in holdingCache { return Ok(InvestmentResponse(id, holdingCache[(user, id)].value)); }
      var found := FindHolding(Db(), id, user);
      if found.None? { return Err(NotFound); }
      holdingCache := holdingCache[(user, id) := Cached(found.value, |outbox|)];
      return Ok(InvestmentResponse(id, found.value));
    }
  }
}
