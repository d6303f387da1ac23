/** What each investment request does to the rows, field by field, and when it is accepted; what the basis of a holding
    is made of over whole histories. */
module InvestmentEffects {
  import opened Common
  import opened MapSums
  import opened Investment
  import opened InvestmentService
  import Idempotency

  // ---------------------------------------------------------------- creating

  /** Exactly the asset types the table's CHECK lists. */
  lemma AssetTypesOfSchema(a: string)
    ensures ValidAssetType(a) <==>
      a in {"stock", "etf", "real_estate_fund", "treasury", "cdb", "lci", "lca", "crypto", "pension", "fund", "dollar",
            "gold", "other"}
  {
  }

  /** A created holding is stored as asked for, its basis being quantity times price; nothing else changes. */
  lemma CreateEffect(l: Ledger, req: Request, env: Env)
    requires req.CreateInvestment? && Apply(l, req, env).result.Ok?
    ensures env.newId !in l.holdings && env.newId in Apply(l, req, env).data.holdings
    ensures
      var out := Apply(l, req, env);
      var l', h := out.data, out.data.holdings[env.newId];
      && out.result.value == InvestmentResponse(env.newId, h)
      && h.user == req.user && h.name == req.name && h.ticker == req.ticker && h.assetType == req.assetType
      && h.broker == req.broker && !h.deleted
      && h.pos.quantity == req.quantity && h.pos.averagePrice == req.averagePrice && h.pos.status == req.status
      && h.pos.totalInvested == req.quantity * req.averagePrice
      && OnlyRow(l.holdings, l'.holdings, env.newId) && l'.txs == l.txs
      && l'.outbox == l.outbox + [InvestmentCreated(env.newId, req.user, req.quantity, req.averagePrice,
                                                    req.quantity * req.averagePrice)]
  {
  }

  lemma CreateAcceptedExactly(l: Ledger, req: Request, env: Env)
    requires req.CreateInvestment?
    ensures Apply(l, req, env).result.Ok? <==>
      && ValidAssetType(req.assetType) && req.user != "" && req.name != "" && req.ticker != ""
      && req.quantity > 0 && req.averagePrice >= 0
      && env.newId !in l.holdings && !(1 <= env.fault <= 3)
  {
  }

  // ---------------------------------------------------------------- updating

  /** Each given field has the value given and each absent one its old value; the basis, the owner and all other rows
      stay as they were. */
  lemma UpdateEffect(l: Ledger, req: Request, env: Env)
    requires req.UpdateInvestment? && Apply(l, req, env).result.Ok?
    ensures FindHolding(l, req.id, req.user).Some? && req.id in Apply(l, req, env).data.holdings
    ensures
      var out, u := Apply(l, req, env), req.change;
      var l', h, h' := out.data, l.holdings[req.id], out.data.holdings[req.id];
      && out.result.value == InvestmentResponse(req.id, h')
      && h'.name == (if u.name.Some? then u.name.value else h.name)
      && h'.ticker == (if u.ticker.Some? then u.ticker.value else h.ticker)
      && h'.assetType == (if u.assetType.Some? then u.assetType.value else h.assetType)
      && h'.broker == (if u.broker.Some? then u.broker.value else h.broker)
      && h'.pos.quantity == (if u.quantity.Some? then u.quantity.value else h.pos.quantity)
      && h'.pos.averagePrice == (if u.averagePrice.Some? then u.averagePrice.value else h.pos.averagePrice)
      && h'.pos.status == (if u.status.Some? then u.status.value else h.pos.status)
      && h'.pos.totalInvested == h.pos.totalInvested && h'.user == h.user && !h'.deleted
      && OnlyRow(l.holdings, l'.holdings, req.id) && l'.txs == l.txs
      && l'.outbox == l.outbox
        + [InvestmentUpdated(req.id, req.user, h'.name, h'.ticker, h'.pos.status, h'.pos.quantity,
                                                    h'.pos.averagePrice, h'.pos.totalInvested)]
  {
  }

  lemma UpdateAcceptedExactly(l: Ledger, req: Request, env: Env)
    requires req.UpdateInvestment?
    ensures Apply(l, req, env).result.Ok? <==>
      var u := req.change;
      && FindHolding(l, req.id, req.user).Some?
      && u.name != Some("") && u.ticker != Some("") && (u.assetType.Some? ==> ValidAssetType(u.assetType.value))
      && (u.quantity.Some? ==> u.quantity.value > 0) && (u.averagePrice.Some? ==> u.averagePrice.value >= 0)
      && (u.status.Some? ==> l.holdings[req.id].pos.status == Active && u.status.value != Active)
      && (env.constraints && u.quantity.None? ==> l.holdings[req.id].pos.quantity > 0)
      && !(1 <= env.fault <= 3)
  {
  }

  // ---------------------------------------------------------------- deleting

  /** A delete is never refused for want of a row. It marks the user's live row and no other, and from then on nobody
      finds it. */
  lemma DeleteEffect(l: Ledger, req: Request, env: Env)
    requires req.DeleteInvestment?
    ensures Apply(l, req, env).result.Ok? <==> !(1 <= env.fault <= 3)
    ensures Apply(l, req, env).result.Ok? ==>
      var l' := Apply(l, req, env).data;
      && l'.holdings.Keys == l.holdings.Keys
      && (forall i :: i in l.holdings ==>
            l'.holdings[i] == if i == req.id && l.holdings[i].user == req.user then l.holdings[i].(deleted := true)
                              else l.holdings[i])
      && FindHolding(l', req.id, req.user).None?
      && l'.txs == l.txs && l'.outbox == l.outbox + [InvestmentDeleted(req.id, req.user)]
  {
  }

  /** A row never goes away, never changes hands, and once deleted stays as it is. */
  lemma RowStays(l: Ledger, req: Request, env: Env, i: string)
    requires i in l.holdings
    ensures
      var l' := Apply(l, req, env).data;
      && i in l'.holdings && l'.holdings[i].user == l.holdings[i].user
      && (l.holdings[i].deleted ==> l'.holdings[i] == l.holdings[i])
  {
  }

  /** After a delete nobody ever finds the row again. */
  lemma {:induction false} DeletedStaysDeleted(t: Tables, actions: seq<Action>, i: string, user: string)
    requires i in t.db.holdings && t.db.holdings[i].deleted
    ensures FindHolding(Idempotency.RunPlain(Serve, t, actions).db, i, user).None?
    decreases |actions|
  {
    if actions != [] {
      if actions[0].Write? { RowStays(t.db, actions[0].req, actions[0].env, i); }
      DeletedStaysDeleted(Serve(t, actions[0]).data, actions[1..], i, user);
    }
  }

  // ---------------------------------------------------------------- recording

  /** The stored transaction is the request's, with quantity times price as its total; only the named holding's position
      moves: by a buy up by its units and its cost, by a sell down by its units and their share of the basis, by an
      income not at all. */
  lemma RecordEffect(l: Ledger, req: Request, env: Env)
    requires req.RecordTransaction? && Apply(l, req, env).result.Ok?
    ensures FindHolding(l, req.investment, req.user).Some? && req.investment in Apply(l, req, env).data.holdings
    ensures
      var out := Apply(l, req, env);
      var l', tx := out.data, Tx(req.investment, req.user, req.kind, req.quantity, req.unitPrice,
                                 req.quantity * req.unitPrice, req.date);
      var h, h' := l.holdings[req.investment], l'.holdings[req.investment];
      && out.result.value == TransactionResponse(env.newId, tx)
      && env.newId !in l.txs && l'.txs == l.txs[env.newId := tx]
      && l'.outbox == l.outbox + [TransactionRecorded(req.investment, req.user, env.newId, req.kind, req.quantity,
                                                      req.unitPrice, req.quantity * req.unitPrice)]
      && OnlyRow(l.holdings, l'.holdings, req.investment) && h' == h.(pos := h'.pos)
      && (!req.kind.BuyTx? && !req.kind.SellTx? ==> h'.pos == h.pos)
      && (req.kind.BuyTx? ==>
            && h'.pos.quantity == h.pos.quantity + req.quantity && h'.pos.status == h.pos.status
            && h'.pos.totalInvested == h.pos.totalInvested + req.quantity * req.unitPrice)
      && (req.kind.SellTx? ==>
            && h'.pos.quantity == h.pos.quantity - req.quantity && h'.pos.averagePrice == h.pos.averagePrice
            && h'.pos.status == if h'.pos.quantity == 0 then Status.Sold else h.pos.status)
  {
  }

  /** Average price after a buy and basis after a sell. */
  lemma RecordRounds(l: Ledger, req: Request, env: Env)
    requires req.RecordTransaction? && Apply(l, req, env).result.Ok?
    requires l.holdings[req.investment].pos.totalInvested >= 0
    ensures
      var p, p' := l.holdings[req.investment].pos, Apply(l, req, env).data.holdings[req.investment].pos;
      var taken := p.totalInvested - p'.totalInvested;
      && (req.kind.BuyTx? ==>
            p'.averagePrice * p'.quantity <= p'.totalInvested < p'.averagePrice * p'.quantity + p'.quantity)
      && (req.kind.SellTx? ==>
            taken * p.quantity <= p.totalInvested * req.quantity < taken * p.quantity + p.quantity)
  {
    var p := l.holdings[req.investment].pos;
    if req.kind.BuyTx? { BuyEffect(p, req.quantity, req.unitPrice); }
    if req.kind.SellTx? { SellEffect(p, req.quantity); }
  }

  lemma RecordAcceptedExactly(l: Ledger, req: Request, env: Env)
    requires req.RecordTransaction?
    ensures Apply(l, req, env).result.Ok? <==>
      && req.user != "" && req.investment != "" && req.date != "" && req.quantity > 0 && req.unitPrice >= 0
      && FindHolding(l, req.investment, req.user).Some?
      && (req.kind.SellTx? ==>
            && req.quantity <= l.holdings[req.investment].pos.quantity
            && (env.constraints ==> req.quantity < l.holdings[req.investment].pos.quantity))
      && env.newId !in l.txs
      && !(1 <= env.fault <= (if req.kind.BuyTx? || req.kind.SellTx? then 4 else 3))
  {
  }

  // ---------------------------------------------------------------- errors

  /** An error changes nothing. */
  lemma ErrorChangesNothing(l: Ledger, req: Request, env: Env)
    requires Apply(l, req, env).result.Err?
    ensures Apply(l, req, env).data == l
  {
  }

  /** No error without its cause: creating an investment. */
  lemma CreateErrors(l: Ledger, req: Request, env: Env)
    requires req.CreateInvestment? && Apply(l, req, env).result.Err?
    ensures
      match Apply(l, req, env).result.error
      case InvalidAssetType => !ValidAssetType(req.assetType)
      case MissingField => req.user == "" || req.name == "" || req.ticker == ""
      case InvalidQuantity => req.quantity <= 0
      case InvalidPrice => req.averagePrice < 0
      case StoreFailure => env.newId in l.holdings || 1 <= env.fault <= 3
      case _ => false
  {
  }

  /** Updating one. */
  lemma UpdateErrors(l: Ledger, req: Request, env: Env)
    requires req.UpdateInvestment? && Apply(l, req, env).result.Err?
    ensures
      match Apply(l, req, env).result.error
      case NotFound => FindHolding(l, req.id, req.user).None?
      case InvalidAssetType => req.change.assetType.Some? && !ValidAssetType(req.change.assetType.value)
      case MissingField => req.change.name == Some("") || req.change.ticker == Some("")
      case InvalidQuantity => req.change.quantity.Some? && req.change.quantity.value <= 0
      case InvalidPrice => req.change.averagePrice.Some? && req.change.averagePrice.value < 0
      case StatusTransition =>
        && req.id in l.holdings && req.change.status.Some?
        && (l.holdings[req.id].pos.status != Active || req.change.status.value == Active)
      case StoreFailure =>
        1 <= env.fault <= 3 || (env.constraints && req.id in l.holdings && l.holdings[req.id].pos.quantity == 0)
      case _ => false
  {
  }

  /** Recording a transaction. */
  lemma RecordErrors(l: Ledger, req: Request, env: Env)
    requires req.RecordTransaction? && Apply(l, req, env).result.Err?
    ensures
      match Apply(l, req, env).result.error
      case MissingField => req.user == "" || req.investment == "" || req.date == ""
      case InvalidQuantity => req.quantity <= 0
      case InvalidPrice => req.unitPrice < 0
      case NotFound => FindHolding(l, req.investment, req.user).None?
      case InsufficientQuantity =>
        req.kind.SellTx? && req.investment in l.holdings && req.quantity > l.holdings[req.investment].pos.quantity
      case StoreFailure =>
        || env.newId in l.txs || 1 <= env.fault <= 4
        || (env.constraints && req.kind.SellTx? && req.investment in l.holdings
            && req.quantity == l.holdings[req.investment].pos.quantity)
      case _ => false
  {
  }

  // ---------------------------------------------------------------- what the basis is made of

  /** The cost at creation, according to the outbox. */
  function CostCreated(events: seq<Event>, id: string): int {
    if events == [] then 0
    else
      var e := events[|events| - 1];
      CostCreated(events[..|events| - 1], id)
      + (if e.InvestmentCreated? && e.id == id then e.quantity * e.averagePrice else 0)
  }

  lemma CostSnoc(events: seq<Event>, e: Event, id: string)
    ensures CostCreated(events + [e], id)
      == CostCreated(events, id) + (if e.InvestmentCreated? && e.id == id then e.quantity * e.averagePrice else 0)
  {
    assert (events + [e])[..|events|] == events;
  }

  lemma {:induction false} NotCreated(events: seq<Event>, id: string)
    requires forall k :: 0 <= k < |events| && events[k].InvestmentCreated? ==> events[k].id != id
    ensures CostCreated(events, id) == 0
  {
    if events != [] { NotCreated(events[..|events| - 1], id); }
  }

  function BuysOn(txs: map<string, Tx>, id: string): map<string, int> {
    map t | t in txs && txs[t].investment == id && txs[t].kind.BuyTx? :: txs[t].total
  }

  /** The total column of an investment's buy rows, added up. */
  ghost function Spent(txs: map<string, Tx>, id: string): int {
    Sum(BuysOn(txs, id))
  }

  predicate NeverSold(txs: map<string, Tx>, id: string) {
    forall t :: t in txs && txs[t].investment == id ==> !txs[t].kind.SellTx?
  }

  lemma SpentPut(txs: map<string, Tx>, t: string, tx: Tx, id: string)
    requires t !in txs
    ensures Spent(txs[t := tx], id)
      == Spent(txs, id) + (if tx.investment == id && tx.kind.BuyTx? then tx.total else 0)
  {
    var before := BuysOn(txs, id);
    if tx.investment == id && tx.kind.BuyTx? {
      assert BuysOn(txs[t := tx], id) == before[t := tx.total];
      SumPut(before, t, tx.total);
    } else {
      assert BuysOn(txs[t := tx], id) == before;
    }
  }

  /** The basis is what the holding cost at creation and in its buys; sells only take from it. */
  ghost predicate BasisOk(l: Ledger, i: string)
    requires i in l.holdings
  {
    var basis, cost := l.holdings[i].pos.totalInvested, CostCreated(l.outbox, i) + Spent(l.txs, i);
    0 <= basis <= cost && (NeverSold(l.txs, i) ==> basis == cost)
  }

  ghost predicate BasisInv(l: Ledger) {
    && (forall i {:trigger BasisOk(l, i)} :: i in l.holdings ==> BasisOk(l, i))
    && (forall k :: 0 <= k < |l.outbox| && l.outbox[k].InvestmentCreated? ==> l.outbox[k].id in l.holdings)
    && (forall t :: t in l.txs ==> l.txs[t].investment in l.holdings)
  }

  lemma CreateBasis(l: Ledger, req: Request, env: Env)
    requires BasisInv(l) && req.CreateInvestment? && Apply(l, req, env).result.Ok?
    ensures BasisInv(Apply(l, req, env).data)
  {
    CreateEffect(l, req, env);
    var l' := Apply(l, req, env).data;
    var e := l'.outbox[|l.outbox|];
    NotCreated(l.outbox, env.newId);
    assert BuysOn(l.txs, env.newId) == map[];
    assert req.quantity * req.averagePrice >= 0;
    forall i | i in l'.holdings ensures BasisOk(l', i) {
      CostSnoc(l.outbox, e, i);
      if i in l.holdings { assert BasisOk(l, i); }
    }
  }

  lemma KeptBasis(l: Ledger, l': Ledger, e: Event)
    requires BasisInv(l) && l'.holdings.Keys == l.holdings.Keys && l'.txs == l.txs
    requires l'.outbox == l.outbox + [e] && !e.InvestmentCreated?
    requires forall i :: i in l.holdings ==> l'.holdings[i].pos.totalInvested == l.holdings[i].pos.totalInvested
    ensures BasisInv(l')
  {
    forall i | i in l'.holdings ensures BasisOk(l', i) {
      CostSnoc(l.outbox, e, i);
      assert BasisOk(l, i);
    }
  }

  lemma RecordBasis(l: Ledger, req: Request, env: Env)
    requires BasisInv(l) && req.RecordTransaction? && Apply(l, req, env).result.Ok?
    ensures BasisInv(Apply(l, req, env).data)
  {
    RecordEffect(l, req, env);
    RecordedAmounts(l, req, env);
    var l' := Apply(l, req, env).data;
    var tx := l'.txs[env.newId];
    RecordedBasis(l, l', req.investment, env.newId, tx, l'.outbox[|l.outbox|]);
  }

  /** What a recorded transaction does to the basis, by its kind. */
  predicate BasisMoves(tx: Tx, before: int, after: int) {
    match tx.kind
    case BuyTx => tx.total >= 0 && after == before + tx.total
    case SellTx => 0 <= after <= before
    case _ => after == before
  }

  lemma RecordedAmounts(l: Ledger, req: Request, env: Env)
    requires BasisInv(l) && req.RecordTransaction? && Apply(l, req, env).result.Ok?
    ensures env.newId in Apply(l, req, env).data.txs
    ensures BasisMoves(Apply(l, req, env).data.txs[env.newId], l.holdings[req.investment].pos.totalInvested,
                       Apply(l, req, env).data.holdings[req.investment].pos.totalInvested)
  {
    RecordEffect(l, req, env);
    RecordAcceptedExactly(l, req, env);
    assert BasisOk(l, req.investment);
    var p := l.holdings[req.investment].pos;
    assert req.quantity * req.unitPrice >= 0;
    if req.kind.SellTx? { SellRoundsUp(p.totalInvested, p.quantity, req.quantity); }
  }

  lemma RecordedBasis(l: Ledger, l': Ledger, id: string, t: string, tx: Tx, e: Event)
    requires BasisInv(l) && id in l.holdings && t !in l.txs && tx.investment == id && !e.InvestmentCreated?
    requires OnlyRow(l.holdings, l'.holdings, id) && l'.txs == l.txs[t := tx] && l'.outbox == l.outbox + [e]
    requires BasisMoves(tx, l.holdings[id].pos.totalInvested, l'.holdings[id].pos.totalInvested)
    ensures BasisInv(l')
  {
    forall i | i in l'.holdings ensures BasisOk(l', i) {
      CostSnoc(l.outbox, e, i);
      SpentPut(l.txs, t, tx, i);
      SoldLater(l.txs, t, tx, i);
      assert BasisOk(l, i);
    }
  }

  lemma SoldLater(txs: map<string, Tx>, t: string, tx: Tx, i: string)
    requires t !in txs
    ensures NeverSold(txs[t := tx], i) <==> NeverSold(txs, i) && !(tx.investment == i && tx.kind.SellTx?)
  {
    assert forall k :: k in txs ==> txs[t := tx][k] == txs[k];
    assert txs[t := tx][t] == tx;
  }

  lemma ApplyBasis(l: Ledger, req: Request, env: Env)
    requires BasisInv(l)
    ensures BasisInv(Apply(l, req, env).data)
  {
    if Apply(l, req, env).result.Err? {
      ErrorChangesNothing(l, req, env);
    } else {
      match req
      case CreateInvestment(_, _, _, _, _, _, _, _) => CreateBasis(l, req, env);
      case RecordTransaction(_, _, _, _, _, _) => RecordBasis(l, req, env);
      case UpdateInvestment(id, user, _) =>
        UpdateEffect(l, req, env);
        KeptBasis(l, Apply(l, req, env).data, Apply(l, req, env).data.outbox[|l.outbox|]);
      case DeleteInvestment(id, user) =>
        DeleteEffect(l, req, env);
        KeptBasis(l, Apply(l, req, env).data, InvestmentDeleted(id, user));
    }
  }

  lemma {:induction false} PlainBasis(t: Tables, actions: seq<Action>)
    requires BasisInv(t.db)
    ensures BasisInv(Idempotency.RunPlain(Serve, t, actions).db)
    decreases |actions|
  {
    if actions != [] {
      if actions[0].Write? { ApplyBasis(t.db, actions[0].req, actions[0].env); }
      PlainBasis(Serve(t, actions[0]).data, actions[1..]);
    }
  }

  /** After any history, updates and retries included: a holding's basis is never negative and at most quantity times
      price at creation plus the totals of its buys, and exactly that if it was never sold from. */
  lemma BasisIsCost(steps: seq<Idempotency.Step<Action>>, i: string)
    requires i in Idempotency.Run(Serve, EMPTY_STATE, steps).data.db.holdings
    ensures
      var l := Idempotency.Run(Serve, EMPTY_STATE, steps).data.db;
      var basis, cost := l.holdings[i].pos.totalInvested, CostCreated(l.outbox, i) + Spent(l.txs, i);
      0 <= basis <= cost && (NeverSold(l.txs, i) ==> basis == cost)
  {
    Idempotency.HistoryIsPlain(Serve, EMPTY_STATE, steps);
    PlainBasis(EMPTY_STATE.data, Idempotency.Served(Serve, EMPTY_STATE, steps));
    assert BasisOk(Idempotency.Run(Serve, EMPTY_STATE, steps).data.db, i);
  }
}
