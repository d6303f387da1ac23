/** How far the read caches of the investment service can be trusted. */
module InvestmentCache {
  import opened Common
  import opened MapSums
  import opened Investment
  import opened InvestmentService
  import Portfolio
  import Idempotency

  /** The trades on an investment among some events. */
  function TradesIn(events: seq<Event>, id: string): seq<Trade> {
    if events == [] then []
    else
      var e := events[|events| - 1];
      TradesIn(events[..|events| - 1], id)
      + (if e.TransactionRecorded? && e.id == id && IsTrade(e.kind)
         then [TradeOf(e.kind, e.quantity, e.unitPrice)] else [])
  }

  lemma TradesSnoc(events: seq<Event>, stamp: nat, e: Event, id: string)
    requires stamp <= |events|
    ensures TradesIn((events + [e])[stamp..], id)
      == TradesIn(events[stamp..], id)
         + (if e.TransactionRecorded? && e.id == id && IsTrade(e.kind)
            then [TradeOf(e.kind, e.quantity, e.unitPrice)] else [])
  {
    assert (events + [e])[stamp..] == events[stamp..] + [e];
    assert (events[stamp..] + [e])[..|events[stamp..]|] == events[stamp..];
  }

  lemma {:induction false} RunTradesSnoc(p: Position, trades: seq<Trade>, t: Trade)
    ensures RunTrades(p, trades + [t]) == ApplyTrade(RunTrades(p, trades), t)
    decreases |trades|
  {
    if trades == [] {
      assert trades + [t] == [t];
      assert RunTrades(ApplyTrade(p, t), []) == ApplyTrade(p, t);
    } else {
      assert (trades + [t])[1..] == trades[1..] + [t];
      RunTradesSnoc(ApplyTrade(p, trades[0]), trades[1..], t);
    }
  }

  /** A cached investment is live and right in everything but its position: the stored position is the cached one after
      the trades committed since it was cached. */
  predicate HoldingEntryOk(l: Ledger, k: (string, string), entry: Cached<Holding>) {
    && k.1 in l.holdings
    && var h := l.holdings[k.1];
    && h.user == k.0 && !h.deleted
    && entry.value == h.(pos := entry.value.pos)
    && entry.stamp <= |l.outbox|
    && h.pos == RunTrades(entry.value.pos, TradesIn(l.outbox[entry.stamp..], k.1))
  }

  predicate CreatedSince(events: seq<Event>, stamp: nat, id: string) {
    exists k :: stamp <= k < |events| && events[k].InvestmentCreated? && events[k].id == id
  }

  predicate UpdatedSince(events: seq<Event>, stamp: nat, id: string) {
    exists k :: stamp <= k < |events| && events[k].InvestmentUpdated? && events[k].id == id
  }

  /** A cached portfolio was computed from active holdings of the user, each of which is still stored as it was up to
      deletion, or has been updated since; the active holdings it misses were created since. */
  predicate PortfolioEntryOk(l: Ledger, user: string, entry: Cached<map<string, Holding>>) {
    && entry.stamp <= |l.outbox|
    && (forall i :: i in entry.value ==> CachedRowOk(l, user, entry, i))
    && (forall i :: i in ActiveOf(l, user) && i !in entry.value ==> CreatedSince(l.outbox, entry.stamp, i))
  }

  predicate CachedRowOk(l: Ledger, user: string, entry: Cached<map<string, Holding>>, i: string)
    requires i in entry.value
  {
    && i in l.holdings && l.holdings[i].user == user
    && entry.value[i].user == user && entry.value[i].pos.status == Active && !entry.value[i].deleted
    && (entry.value[i] == l.holdings[i].(deleted := false) || UpdatedSince(l.outbox, entry.stamp, i))
  }

  predicate CachesOk(t: Tables) {
    && (forall k :: k in t.holdings ==> HoldingEntryOk(t.db, k, t.holdings[k]))
    && (forall u :: u in t.portfolios ==> PortfolioEntryOk(t.db, u, t.portfolios[u]))
  }

  lemma SinceGrows(events: seq<Event>, e: Event, stamp: nat, id: string)
    requires stamp <= |events|
    ensures CreatedSince(events + [e], stamp, id) <==>
      CreatedSince(events, stamp, id) || (e.InvestmentCreated? && e.id == id)
    ensures UpdatedSince(events + [e], stamp, id) <==>
      UpdatedSince(events, stamp, id) || (e.InvestmentUpdated? && e.id == id)
  {
    assert forall k :: 0 <= k < |events| ==> (events + [e])[k] == events[k];
    assert (events + [e])[|events|] == e;
  }

  /** What a committed request did: one event, and at most one row, added, edited, deleted or traded on. An edit never
      makes a holding active. */
  predicate Committed(l: Ledger, req: Request, l': Ledger, e: Event) {
    && l'.outbox == l.outbox + [e]
    && match req
       case CreateInvestment(_, _, _, _, _, _, _, _) =>
         && e.InvestmentCreated? && e.id !in l.holdings && e.id in l'.holdings
         && l'.holdings == l.holdings[e.id := l'.holdings[e.id]]
       case UpdateInvestment(id, user, _) =>
         && e.InvestmentUpdated? && e.id == id && FindHolding(l, id, user).Some? && id in l'.holdings
         && l'.holdings == l.holdings[id := l'.holdings[id]]
         && l'.holdings[id].user == user && !l'.holdings[id].deleted
         && (l'.holdings[id].pos.status == Active ==> l.holdings[id].pos.status == Active)
       case DeleteInvestment(id, user) =>
         && e.InvestmentDeleted?
         && (l'.holdings == l.holdings
             || (FindHolding(l, id, user).Some? && l'.holdings == l.holdings[id := l.holdings[id].(deleted := true)]))
       case RecordTransaction(user, id, kind, quantity, unitPrice, _) =>
         && e.TransactionRecorded? && e.id == id && e.kind == kind && e.quantity == quantity && e.unitPrice == unitPrice
         && FindHolding(l, id, user).Some?
         && var h := l.holdings[id];
         && l'.holdings == l.holdings[id := h.(pos := AfterTx(h.pos, kind, quantity, unitPrice))]
  }

  lemma CommitShape(l: Ledger, req: Request, env: Env)
    requires Apply(l, req, env).result.Ok?
    ensures |Apply(l, req, env).data.outbox| == |l.outbox| + 1
    ensures Committed(l, req, Apply(l, req, env).data, Apply(l, req, env).data.outbox[|l.outbox|])
  {
  }

  lemma FailureKeeps(l: Ledger, req: Request, env: Env)
    requires Apply(l, req, env).result.Err?
    ensures Apply(l, req, env).data == l
  {
  }

  lemma HoldingEntrySurvives(l: Ledger, req: Request, l': Ledger, e: Event, k: (string, string), entry: Cached<Holding>)
    requires HoldingEntryOk(l, k, entry) && Committed(l, req, l', e)
    requires !((req.DeleteInvestment? || req.UpdateInvestment?) && (req.user, req.id) == k)
    ensures HoldingEntryOk(l', k, entry)
  {
    TradesSnoc(l.outbox, entry.stamp, e, k.1);
    var trades := TradesIn(l.outbox[entry.stamp..], k.1);
    if req.RecordTransaction? && req.investment == k.1 && IsTrade(req.kind) {
      RunTradesSnoc(entry.value.pos, trades, TradeOf(req.kind, req.quantity, req.unitPrice));
    } else {
      assert trades + [] == trades;
    }
  }

  lemma PortfolioEntrySurvives(l: Ledger, req: Request, l': Ledger, e: Event, u: string,
                               entry: Cached<map<string, Holding>>)
    requires PortfolioEntryOk(l, u, entry) && Committed(l, req, l', e)
    requires !(req.RecordTransaction? && req.user == u)
    ensures PortfolioEntryOk(l', u, entry)
  {
    forall i | i in entry.value ensures CachedRowOk(l', u, entry, i) {
      assert CachedRowOk(l, u, entry, i);
      SinceGrows(l.outbox, e, entry.stamp, i);
    }
    forall i | i in ActiveOf(l', u) && i !in entry.value ensures CreatedSince(l'.outbox, entry.stamp, i) {
      SinceGrows(l.outbox, e, entry.stamp, i);
    }
  }

  lemma WriteKeepsCaches(t: Tables, req: Request, env: Env)
    requires CachesOk(t)
    ensures CachesOk(ServeWrite(t, req, env).data)
  {
    var t' := ServeWrite(t, req, env).data;
    if Apply(t.db, req, env).result.Ok? {
      CommitShape(t.db, req, env);
      var e := t'.db.outbox[|t.db.outbox|];
      forall k | k in t'.holdings ensures HoldingEntryOk(t'.db, k, t'.holdings[k]) {
        HoldingEntrySurvives(t.db, req, t'.db, e, k, t.holdings[k]);
      }
      forall u | u in t'.portfolios ensures PortfolioEntryOk(t'.db, u, t'.portfolios[u]) {
        PortfolioEntrySurvives(t.db, req, t'.db, e, u, t.portfolios[u]);
      }
    } else {
      FailureKeeps(t.db, req, env);
    }
  }

  lemma ServeKeepsCaches(t: Tables, a: Action)
    requires CachesOk(t)
    ensures CachesOk(Serve(t, a).data)
  {
    match a
    case Write(req, env) => WriteKeepsCaches(t, req, env);
    case GetInvestment(id, user) =>
      assert t.db.outbox[|t.db.outbox|..] == [];
    case _ =>
  }

  lemma {:induction false} PlainKeepsCaches(t: Tables, actions: seq<Action>)
    requires CachesOk(t)
    ensures CachesOk(Idempotency.RunPlain(Serve, t, actions))
    decreases |actions|
  {
    if actions != [] {
      ServeKeepsCaches(t, actions[0]);
      PlainKeepsCaches(Serve(t, actions[0]).data, actions[1..]);
    }
  }

  /** In every history, updates included: a cached investment lags behind the stored one by exactly the trades recorded
      since it was cached, because recording a transaction deletes the portfolio entry only; a cached portfolio differs
      from the current one by the investments created, updated or deleted since, because none of these deletes it. */
  lemma CachesStayOk(steps: seq<Idempotency.Step<Action>>)
    ensures CachesOk(Idempotency.Run(Serve, EMPTY_STATE, steps).data)
  {
    Idempotency.HistoryIsPlain(Serve, EMPTY_STATE, steps);
    PlainKeepsCaches(EMPTY_STATE.data, Idempotency.Served(Serve, EMPTY_STATE, steps));
  }

  // ---------------------------------------------------------------- what is dropped, and what a read answers

  /** A cached investment survives a write untouched unless the write is a delete of it or a successful update of it; a
      recorded transaction does not drop it. */
  lemma HoldingDropsExactly(t: Tables, req: Request, env: Env, k: (string, string))
    requires k in t.holdings
    ensures
      var out := ServeWrite(t, req, env);
      && (k !in out.data.holdings <==>
            || (req.DeleteInvestment? && k == (req.user, req.id))
            || (out.result.Ok? && req.UpdateInvestment? && k == (req.user, req.id)))
      && (k in out.data.holdings ==> out.data.holdings[k] == t.holdings[k])
  {
  }

  /** A cached portfolio survives everything but a transaction its user records. */
  lemma PortfolioDropsExactly(t: Tables, req: Request, env: Env, u: string)
    requires u in t.portfolios
    ensures
      var out := ServeWrite(t, req, env);
      && (u !in out.data.portfolios <==> out.result.Ok? && req.RecordTransaction? && req.user == u)
      && (u in out.data.portfolios ==> out.data.portfolios[u] == t.portfolios[u])
  {
  }

  /** A read succeeds exactly for the user's live holding, answers it right in everything but its position, and leaves
      it cached. */
  lemma ReadExactly(t: Tables, id: string, user: string)
    requires CachesOk(t)
    ensures
      var out := ReadInvestment(t, id, user);
      && (out.result.Ok? <==> FindHolding(t.db, id, user).Some?)
      && (out.result.Err? ==> out == Outcome(t, Err(NotFound)))
      && (out.result.Ok? ==>
            && out.data.db == t.db && (user, id) in out.data.holdings && out.result.value.InvestmentResponse?
            && out.result.value.id == id
            && out.result.value.holding == t.db.holdings[id].(pos := out.result.value.holding.pos)
            && ((user, id) !in t.holdings ==> out.result.value.holding == t.db.holdings[id]))
  {
    if (user, id) in t.holdings { assert HoldingEntryOk(t.db, (user, id), t.holdings[(user, id)]); }
  }

  /** A portfolio that is not cached is computed from exactly the user's active live holdings, and cached. */
  lemma FreshPortfolio(t: Tables, user: string)
    requires user !in t.portfolios
    ensures
      var out := ReadPortfolio(t, user);
      && out.result.Ok? && out.result.value.PortfolioResponse? && out.data.db == t.db && user in out.data.portfolios
      && (forall i :: i in out.result.value.holdings <==>
            i in t.db.holdings && t.db.holdings[i].user == user && t.db.holdings[i].pos.status == Active
            && !t.db.holdings[i].deleted)
      && (forall i :: i in out.result.value.holdings ==> out.result.value.holdings[i] == t.db.holdings[i])
  {
  }

  // ---------------------------------------------------------------- what a stale summary is off by

  /** The rows of one table that the other does not have, or has differently. */
  function Only(table: map<string, Holding>, other: map<string, Holding>): map<string, Holding> {
    map i | i in table && !(i in other && other[i] == table[i]) :: table[i]
  }

  lemma ShareDifference(a: map<string, Holding>, b: map<string, Holding>, t: Option<string>)
    ensures Sum(Portfolio.InvestedIn(a, t)) - Sum(Portfolio.InvestedIn(b, t))
      == Sum(Portfolio.InvestedIn(Only(a, b), t)) - Sum(Portfolio.InvestedIn(Only(b, a), t))
  {
    var same := set i | i in a && i in b && a[i] == b[i];
    KeptPart(a, b, same, t);
    KeptPart(b, a, same, t);
    assert Restricted(Portfolio.InvestedIn(a, t), same) == Restricted(Portfolio.InvestedIn(b, t), same);
  }

  lemma KeptPart(a: map<string, Holding>, b: map<string, Holding>, same: set<string>, t: Option<string>)
    requires forall i :: i in same <==> i in a && i in b && a[i] == b[i]
    ensures Sum(Portfolio.InvestedIn(a, t))
      == Sum(Portfolio.InvestedIn(Only(a, b), t)) + Sum(Restricted(Portfolio.InvestedIn(a, t), same))
  {
    SumSplit(Portfolio.InvestedIn(a, t), same);
    assert Portfolio.InvestedIn(a, t) - same == Portfolio.InvestedIn(Only(a, b), t);
  }

  /** The summary served from the cache against the one a current computation would give, overall and for every asset
      type: what is invested differs by exactly the holdings created or updated since on one side and those deleted or
      updated since on the other, and the current value with it. */
  lemma StaleSummary(l: Ledger, user: string, entry: Cached<map<string, Holding>>, cached: seq<Portfolio.Item>,
                     current: seq<Portfolio.Item>, s: Portfolio.Summary, s': Portfolio.Summary)
    requires PortfolioEntryOk(l, user, entry)
    requires Portfolio.Lists(cached, entry.value) && Portfolio.Lists(current, ActiveOf(l, user))
    requires Portfolio.IsSummary(cached, Portfolio.InvestedById(cached), s)
    requires Portfolio.IsSummary(current, Portfolio.InvestedById(current), s')
    ensures
      var now, was := Only(ActiveOf(l, user), entry.value), Only(entry.value, ActiveOf(l, user));
      && s'.totalInvested - s.totalInvested
         == s'.currentValue - s.currentValue
         == Sum(Portfolio.InvestedIn(now, None)) - Sum(Portfolio.InvestedIn(was, None))
      && (forall t ::
            Portfolio.GroupTotal(current, map[], Portfolio.Invested, t)
            - Portfolio.GroupTotal(cached, map[], Portfolio.Invested, t)
            == Sum(Portfolio.InvestedIn(now, t)) - Sum(Portfolio.InvestedIn(was, t)))
      && (forall i :: i in now ==> CreatedSince(l.outbox, entry.stamp, i) || UpdatedSince(l.outbox, entry.stamp, i))
      && (forall i :: i in was ==>
            i in l.holdings && (l.holdings[i].deleted || UpdatedSince(l.outbox, entry.stamp, i)))
  {
    var a, b := ActiveOf(l, user), entry.value;
    Portfolio.NoGain(cached, s);
    Portfolio.NoGain(current, s');
    Portfolio.GroupTotalOfTable(current, a, Portfolio.InvestedById(current), None);
    Portfolio.GroupTotalOfTable(cached, b, Portfolio.InvestedById(cached), None);
    ShareDifference(a, b, None);
    forall t ensures
      Portfolio.GroupTotal(current, map[], Portfolio.Invested, t)
      - Portfolio.GroupTotal(cached, map[], Portfolio.Invested, t)
      == Sum(Portfolio.InvestedIn(Only(a, b), t)) - Sum(Portfolio.InvestedIn(Only(b, a), t))
    {
      Portfolio.GroupTotalOfTable(current, a, map[], t);
      Portfolio.GroupTotalOfTable(cached, b, map[], t);
      ShareDifference(a, b, t);
    }
    StaleRows(l, user, entry);
  }

  lemma StaleRows(l: Ledger, user: string, entry: Cached<map<string, Holding>>)
    requires PortfolioEntryOk(l, user, entry)
    ensures forall i :: i in Only(ActiveOf(l, user), entry.value) ==>
      CreatedSince(l.outbox, entry.stamp, i) || UpdatedSince(l.outbox, entry.stamp, i)
    ensures forall i :: i in Only(entry.value, ActiveOf(l, user)) ==>
      i in l.holdings && (l.holdings[i].deleted || UpdatedSince(l.outbox, entry.stamp, i))
  {
    var a, b := ActiveOf(l, user), entry.value;
    forall i | i in Only(a, b)
      ensures CreatedSince(l.outbox, entry.stamp, i) || UpdatedSince(l.outbox, entry.stamp, i)
    {
      if i in b { assert CachedRowOk(l, user, entry, i); }
    }
    forall i | i in Only(b, a)
      ensures i in l.holdings && (l.holdings[i].deleted || UpdatedSince(l.outbox, entry.stamp, i))
    {
      assert CachedRowOk(l, user, entry, i);
    }
  }

  /** A holding is created, the portfolio is read and cached, and the holding is cancelled: the cached portfolio still
      counts it, the current one is empty. */
  lemma StalePortfolioExample(env: Env)
    requires env.fault == 0
    ensures
      var t0 := EMPTY_STATE.data;
      var t1 := Serve(t0, Write(CreateInvestment("u", "n", "T", "stock", 3, 10, "", Active), env)).data;
      var t2 := Serve(t1, GetPortfolio("u")).data;
      var cancel := InvestmentUpdate("u", None, None, None, None, None, None, Some(Cancelled));
      var t3 := Serve(t2, Write(UpdateInvestment(env.newId, "u", cancel), env)).data;
      && "u" in t3.portfolios && env.newId in t3.portfolios["u"].value
      && t3.portfolios["u"].value[env.newId].pos.status == Active && ActiveOf(t3.db, "u") == map[]
  {
  }
}
