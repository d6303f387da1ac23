/** What every history of the investment service keeps: positions against the recorded transactions and the outbox, and
    what the schema refuses. */
module InvestmentRules {
  import opened Common
  import opened MapSums
  import opened Investment
  import opened InvestmentService
  import Idempotency

  // ---------------------------------------------------------------- units, three ways

  /** Units an event adds to an investment. */
  function UnitsOf(e: Event, id: string): int {
    if e.id != id then 0
    else match e
      case InvestmentCreated(_, _, quantity, _, _) => quantity
      case InvestmentUpdated(_, _, _, _, _, _, _, _) => 0
      case InvestmentDeleted(_, _) => 0
      case TransactionRecorded(_, _, _, kind, quantity, _, _) => Signed(kind, quantity)
  }

  function Signed(kind: Kind, quantity: int): int {
    if kind.BuyTx? then quantity else if kind.SellTx? then -quantity else 0
  }

  /** Units of an investment according to the outbox. */
  function UnitsInEvents(events: seq<Event>, id: string): int {
    if events == [] then 0 else UnitsInEvents(events[..|events| - 1], id) + UnitsOf(events[|events| - 1], id)
  }

  /** Units an investment was created with, according to the outbox. */
  function UnitsCreated(events: seq<Event>, id: string): int {
    if events == [] then 0
    else
      var e := events[|events| - 1];
      UnitsCreated(events[..|events| - 1], id) + (if e.InvestmentCreated? then UnitsOf(e, id) else 0)
  }

  lemma UnitsSnoc(events: seq<Event>, e: Event, id: string)
    ensures UnitsInEvents(events + [e], id) == UnitsInEvents(events, id) + UnitsOf(e, id)
    ensures UnitsCreated(events + [e], id)
      == UnitsCreated(events, id) + (if e.InvestmentCreated? then UnitsOf(e, id) else 0)
  {
    assert (events + [e])[..|events|] == events;
  }

  lemma {:induction false} NoEventsNoUnits(events: seq<Event>, id: string)
    requires forall k :: 0 <= k < |events| && !events[k].InvestmentDeleted? ==> events[k].id != id
    ensures UnitsInEvents(events, id) == 0 && UnitsCreated(events, id) == 0
  {
    if events != [] { NoEventsNoUnits(events[..|events| - 1], id); }
  }

  function TradedOn(txs: map<string, Tx>, id: string): map<string, int> {
    map t | t in txs && txs[t].investment == id :: Signed(txs[t].kind, txs[t].quantity)
  }

  /** Units bought minus units sold, according to the transaction table. */
  ghost function UnitsTraded(txs: map<string, Tx>, id: string): int {
    Sum(TradedOn(txs, id))
  }

  lemma TradedPut(txs: map<string, Tx>, t: string, tx: Tx, id: string)
    requires t !in txs
    ensures UnitsTraded(txs[t := tx], id)
      == UnitsTraded(txs, id) + (if tx.investment == id then Signed(tx.kind, tx.quantity) else 0)
  {
    var before := TradedOn(txs, id);
    if tx.investment == id {
      assert TradedOn(txs[t := tx], id) == before[t := Signed(tx.kind, tx.quantity)];
      SumPut(before, t, Signed(tx.kind, tx.quantity));
    } else {
      assert TradedOn(txs[t := tx], id) == before;
    }
  }

  // ---------------------------------------------------------------- the invariant

  ghost predicate HoldingOk(l: Ledger, i: string)
    requires i in l.holdings
  {
    var p := l.holdings[i].pos;
    && Sound(p)
    && p.quantity == UnitsInEvents(l.outbox, i)
    && p.quantity == UnitsCreated(l.outbox, i) + UnitsTraded(l.txs, i)
  }

  /** Every position is sound and holds the units its events add up to, which are those it was created with plus those
      of its recorded transactions; events and transactions belong to existing investments. */
  ghost predicate Inv(l: Ledger) {
    && (forall i {:trigger HoldingOk(l, i)} :: i in l.holdings ==> HoldingOk(l, i))
    && (forall k :: 0 <= k < |l.outbox| && !l.outbox[k].InvestmentDeleted? ==> l.outbox[k].id in l.holdings)
    && (forall t :: t in l.txs ==> l.txs[t].investment in l.holdings)
  }

  lemma AddedKeeps(l: Ledger, l': Ledger, id: string, h: Holding, e: Event)
    requires Inv(l) && id !in l.holdings && Sound(h.pos)
    requires l'.holdings == l.holdings[id := h] && l'.txs == l.txs && l'.outbox == l.outbox + [e]
    requires e.InvestmentCreated? && e.id == id && e.quantity == h.pos.quantity
    ensures Inv(l')
  {
    NoEventsNoUnits(l.outbox, id);
    assert TradedOn(l.txs, id) == map[];
    forall i | i in l'.holdings ensures HoldingOk(l', i) {
      UnitsSnoc(l.outbox, e, i);
      if i != id { assert HoldingOk(l, i); }
    }
  }

  lemma CreateKeeps(l: Ledger, req: Request, env: Env)
    requires Inv(l) && req.CreateInvestment?
    ensures Inv(ApplyCreate(l, req, env).data)
  {
    var out := ApplyCreate(l, req, env);
    if out.result.Ok? {
      CreatedSound(req.quantity, req.averagePrice, req.status);
      AddedKeeps(l, out.data, env.newId, out.result.value.holding, out.data.outbox[|l.outbox|]);
    }
  }

  lemma DeleteKeeps(l: Ledger, req: Request, env: Env)
    requires Inv(l) && req.DeleteInvestment?
    ensures Inv(ApplyDelete(l, req, env).data)
  {
    var out := ApplyDelete(l, req, env);
    if out.result.Ok? {
      forall i | i in out.data.holdings ensures HoldingOk(out.data, i) {
        assert HoldingOk(l, i);
        UnitsSnoc(l.outbox, InvestmentDeleted(req.id, req.user), i);
      }
    }
  }

  lemma AfterTxSound(p: Position, kind: Kind, quantity: int, unitPrice: int)
    requires Sound(p) && quantity > 0 && unitPrice >= 0
    requires kind.SellTx? ==> SellError(p, quantity, unitPrice) == None
    ensures Sound(AfterTx(p, kind, quantity, unitPrice))
    ensures AfterTx(p, kind, quantity, unitPrice).quantity == p.quantity + Signed(kind, quantity)
  {
    if IsTrade(kind) { TradeKeepsSound(p, TradeOf(kind, quantity, unitPrice)); }
  }

  lemma RecordedKeeps(l: Ledger, l': Ledger, id: string, p: Position, t: string, tx: Tx, e: Event)
    requires Inv(l) && id in l.holdings && t !in l.txs && tx.investment == id
    requires l' == Ledger(l.holdings[id := l.holdings[id].(pos := p)], l.txs[t := tx], l.outbox + [e])
    requires e.TransactionRecorded? && e.id == id && e.kind == tx.kind && e.quantity == tx.quantity
    requires Sound(p) && p.quantity == l.holdings[id].pos.quantity + Signed(tx.kind, tx.quantity)
    ensures Inv(l')
  {
    forall i | i in l'.holdings ensures HoldingOk(l', i) {
      assert HoldingOk(l, i);
      UnitsSnoc(l.outbox, e, i);
      TradedPut(l.txs, t, tx, i);
    }
  }

  lemma RecordKeeps(l: Ledger, req: Request, env: Env)
    requires Inv(l) && req.RecordTransaction?
    ensures Inv(ApplyRecord(l, req, env).data)
  {
    var out := ApplyRecord(l, req, env);
    if out.result.Ok? {
      var p := l.holdings[req.investment].pos;
      assert HoldingOk(l, req.investment);
      AfterTxSound(p, req.kind, req.quantity, req.unitPrice);
      RecordedKeeps(l, out.data, req.investment, AfterTx(p, req.kind, req.quantity, req.unitPrice), env.newId,
                    TxOf(req), out.data.outbox[|l.outbox|]);
    }
  }

  // ---------------------------------------------------------------- updates

  /** An update that is stored. */
  predicate UpdateStored(l: Ledger, req: Request, env: Env) {
    && req.UpdateInvestment? && FindHolding(l, req.id, req.user).Some?
    && var h, change := l.holdings[req.id], req.change.(user := req.user);
    && ChangeError(h, change) == None && RowAccepted(env, Updated(h, change).pos) && !(1 <= env.fault <= 3)
  }

  /** A stored update that changes the quantity, or sets a price the unchanged basis is more than a cent per unit away
      from. */
  predicate EditsBasis(l: Ledger, req: Request, env: Env) {
    && UpdateStored(l, req, env)
    && var p := l.holdings[req.id].pos;
    && var quantity, price := Or(req.change.quantity, p.quantity), Or(req.change.averagePrice, p.averagePrice);
    && !(quantity == p.quantity && price * quantity <= p.totalInvested <= (price + 1) * quantity)
  }

  lemma UpdatedSound(p: Position, u: InvestmentUpdate)
    requires Sound(p) && PositionError(p, u) == None
    ensures
      var p' := UpdatedPosition(p, u);
      Sound(p') <==>
        p'.averagePrice * p'.quantity <= p.totalInvested <= (p'.averagePrice + 1) * p'.quantity
  {
  }

  lemma UpdateKeeps(l: Ledger, req: Request, env: Env)
    requires Inv(l) && req.UpdateInvestment?
    ensures Inv(ApplyUpdateInvestment(l, req, env).data) <==> !EditsBasis(l, req, env)
  {
    if UpdateStored(l, req, env) {
      var out := ApplyUpdateInvestment(l, req, env);
      var h, change, l', e := l.holdings[req.id], req.change.(user := req.user), out.data, out.data.outbox[|l.outbox|];
      assert HoldingOk(l, req.id);
      UpdatedSound(h.pos, change);
      UpdatedKeeps(l, l', req.id, Updated(h, change), e);
    }
  }

  /** A row replaced together with an event that says nothing about units. */
  lemma UpdatedKeeps(l: Ledger, l': Ledger, id: string, h: Holding, e: Event)
    requires Inv(l) && id in l.holdings && e.InvestmentUpdated? && e.id == id
    requires l' == l.(holdings := l.holdings[id := h], outbox := l.outbox + [e])
    ensures Inv(l') <==> Sound(h.pos) && h.pos.quantity == l.holdings[id].pos.quantity
  {
    forall i | i in l'.holdings ensures i != id ==> HoldingOk(l', i) {
      assert HoldingOk(l, i);
      UnitsSnoc(l.outbox, e, i);
    }
    assert HoldingOk(l, id);
    UnitsSnoc(l.outbox, e, id);
    assert HoldingOk(l', id) <==> Sound(h.pos) && h.pos.quantity == l.holdings[id].pos.quantity;
  }

  /** A request keeps every position sound and equal to its transactions exactly when it is not an update that edits the
      basis away: UpdateInvestment sets quantity and price beside it. */
  lemma ApplyKeepsExactly(l: Ledger, req: Request, env: Env)
    requires Inv(l)
    ensures Inv(Apply(l, req, env).data) <==> !EditsBasis(l, req, env)
  {
    match req
    case CreateInvestment(_, _, _, _, _, _, _, _) => CreateKeeps(l, req, env);
    case UpdateInvestment(_, _, _) => UpdateKeeps(l, req, env);
    case DeleteInvestment(_, _) => DeleteKeeps(l, req, env);
    case RecordTransaction(_, _, _, _, _, _) => RecordKeeps(l, req, env);
  }

  ghost predicate AlwaysInv(l: Ledger, calls: seq<Action>)
    decreases |calls|
  {
    && Inv(l)
    && (calls != [] ==>
          AlwaysInv(if calls[0].Write? then Apply(l, calls[0].req, calls[0].env).data else l, calls[1..]))
  }

  predicate NeverEditsBasis(l: Ledger, calls: seq<Action>)
    decreases |calls|
  {
    calls != [] ==>
      && (calls[0].Write? ==> !EditsBasis(l, calls[0].req, calls[0].env))
      && NeverEditsBasis(if calls[0].Write? then Apply(l, calls[0].req, calls[0].env).data else l, calls[1..])
  }

  /** Over a whole history that holds at every point exactly when no such update occurs in it. */
  lemma {:induction false} PositionsHoldExactly(l: Ledger, calls: seq<Action>)
    requires Inv(l)
    ensures AlwaysInv(l, calls) <==> NeverEditsBasis(l, calls)
    decreases |calls|
  {
    if calls != [] {
      if calls[0].Write? { ApplyKeepsExactly(l, calls[0].req, calls[0].env); }
      var l' := if calls[0].Write? then Apply(l, calls[0].req, calls[0].env).data else l;
      if Inv(l') { PositionsHoldExactly(l', calls[1..]); }
    }
  }

  /** Three units for ten cents each, then the quantity edited to five: fifty cents of price, thirty of basis. */
  lemma EditExample(constraints: bool)
    ensures
      var create := CreateInvestment("u", "n", "T", "stock", 3, 10, "", Active);
      var edit := InvestmentUpdate("u", None, None, None, Some(5), None, None, None);
      var l := Apply(EMPTY_LEDGER, create, Env("i", 0, constraints)).data;
      var l' := Apply(l, UpdateInvestment("i", "u", edit), Env("", 0, constraints)).data;
      "i" in l'.holdings && l'.holdings["i"].pos == Position(5, 10, 30, Active) && !Sound(l'.holdings["i"].pos)
  {
  }

  /** An update that sets neither quantity nor price. */
  predicate LeavesAmounts(a: Action) {
    a.Write? && a.req.UpdateInvestment? ==> a.req.change.quantity == None && a.req.change.averagePrice == None
  }

  lemma ApplyKeeps(l: Ledger, req: Request, env: Env)
    requires Inv(l) && LeavesAmounts(Write(req, env))
    ensures Inv(Apply(l, req, env).data)
  {
    ApplyKeepsExactly(l, req, env);
    if req.UpdateInvestment? && FindHolding(l, req.id, req.user).Some? { assert HoldingOk(l, req.id); }
  }

  lemma {:induction false} PlainKeeps(t: Tables, actions: seq<Action>)
    requires Inv(t.db) && forall a :: a in actions ==> LeavesAmounts(a)
    ensures Inv(Idempotency.RunPlain(Serve, t, actions).db)
    decreases |actions|
  {
    if actions != [] {
      if actions[0].Write? { ApplyKeeps(t.db, actions[0].req, actions[0].env); }
      PlainKeeps(Serve(t, actions[0]).data, actions[1..]);
    }
  }

  /** After any history of the service whose updates leave quantity and price alone, every stored position is sound, and
      its quantity is both what the outbox adds up to and the units it was created with plus the buys minus the sells of
      the transaction table. */
  lemma HistoryKeeps(steps: seq<Idempotency.Step<Action>>, i: string)
    requires forall k :: 0 <= k < |steps| && steps[k].Call? ==> LeavesAmounts(steps[k].call.request)
    requires i in Idempotency.Run(Serve, EMPTY_STATE, steps).data.db.holdings
    ensures
      var l := Idempotency.Run(Serve, EMPTY_STATE, steps).data.db;
      var p := l.holdings[i].pos;
      && Sound(p)
      && p.quantity == UnitsInEvents(l.outbox, i) == UnitsCreated(l.outbox, i) + UnitsTraded(l.txs, i)
  {
    Idempotency.HistoryIsPlain(Serve, EMPTY_STATE, steps);
    Idempotency.ServedAll(Serve, EMPTY_STATE, steps, LeavesAmounts);
    PlainKeeps(EMPTY_STATE.data, Idempotency.Served(Serve, EMPTY_STATE, steps));
    assert HoldingOk(Idempotency.Run(Serve, EMPTY_STATE, steps).data.db, i);
  }

  // ---------------------------------------------------------------- what the schema refuses

  /** With the CHECK enforced, no refused write and a new id, recording a sell succeeds exactly when the fields are
      given, the holding is the user's and live, and the quantity is positive and less than what is held: the entity
      marks a fully sold investment as sold, but the table's CHECK (quantity > 0) refuses to store it. */
  lemma SellCommitsExactly(l: Ledger, req: Request, env: Env)
    requires req.RecordTransaction? && req.kind.SellTx? && env.constraints && env.fault == 0 && env.newId !in l.txs
    ensures Apply(l, req, env).result.Ok? <==>
      && req.user != "" && req.investment != "" && req.date != ""
      && FindHolding(l, req.investment, req.user).Some?
      && 0 < req.quantity < l.holdings[req.investment].pos.quantity && req.unitPrice >= 0
  {
  }

  predicate NoneSoldOut(l: Ledger) {
    forall i :: i in l.holdings ==> l.holdings[i].pos.quantity > 0
  }

  /** A sell of all that is held, by a request that goes through. */
  predicate SellsOut(l: Ledger, req: Request, env: Env) {
    && req.RecordTransaction? && req.kind.SellTx? && RecordError(req) == None && !env.constraints
    && !(1 <= env.fault <= 4) && env.newId !in l.txs
    && FindHolding(l, req.investment, req.user).Some?
    && req.quantity == l.holdings[req.investment].pos.quantity
  }

  /** A request leaves some holding without units exactly when it is such a sell. */
  lemma SoldOutExactly(l: Ledger, req: Request, env: Env)
    requires NoneSoldOut(l)
    ensures NoneSoldOut(Apply(l, req, env).data) <==> !SellsOut(l, req, env)
  {
    if req.RecordTransaction? {
      RecordSoldOut(l, req, env);
    }
  }

  lemma RecordSoldOut(l: Ledger, req: Request, env: Env)
    requires NoneSoldOut(l) && req.RecordTransaction?
    ensures NoneSoldOut(ApplyRecord(l, req, env).data) <==> !SellsOut(l, req, env)
  {
    var out := ApplyRecord(l, req, env);
    if out.result.Ok? {
      var p := l.holdings[req.investment].pos;
      assert out.data.holdings[req.investment].pos.quantity == p.quantity + Signed(req.kind, req.quantity);
    }
  }

  /** With the constraint enforced in every call, no holding is ever sold out, whatever the history. */
  lemma {:induction false} FullSellRefusedBySchema(t: Tables, actions: seq<Action>)
    requires NoneSoldOut(t.db)
    requires forall k :: 0 <= k < |actions| && actions[k].Write? ==> actions[k].env.constraints
    ensures NoneSoldOut(Idempotency.RunPlain(Serve, t, actions).db)
    decreases |actions|
  {
    if actions != [] {
      if actions[0].Write? { SoldOutExactly(t.db, actions[0].req, actions[0].env); }
      forall k | 0 <= k < |actions[1..]| && actions[1..][k].Write? ensures actions[1..][k].env.constraints {
        assert actions[1..][k] == actions[k + 1];
      }
      FullSellRefusedBySchema(Serve(t, actions[0]).data, actions[1..]);
    }
  }

  /** Three units created and all three sold: refused with the constraint, sold without it. */
  lemma FullSellExample(constraints: bool)
    ensures
      var create := CreateInvestment("u", "n", "T", "stock", 3, 10, "", Active);
      var l := Apply(EMPTY_LEDGER, create, Env("i", 0, constraints)).data;
      var out := Apply(l, RecordTransaction("u", "i", SellTx, 3, 12, "2024-05-01"), Env("t", 0, constraints));
      if constraints then out == Outcome(l, Err(StoreFailure))
      else "i" in out.data.holdings && out.data.holdings["i"].pos == Position(0, 10, 0, Status.Sold)
  {
  }
}
