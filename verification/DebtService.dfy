/** The debt service as the source writes it: entities changed in place, transactions of single writes that are rolled
    back at the first one that fails, idempotency keys around them and a read cache beside them. Each operation is
    proved to be the corresponding step of `Serve` under its key. */
module DebtService {
  import opened Common
  import opened Amortization
  import DebtSchedules
  import opened DebtEntities
  import opened DebtLedger
  import Idempotency

  /** The database and the read cache, whose keys carry the debt's id only. */
  datatype Tables = Tables(db: Ledger, cache: map<string, Debt>)

  datatype Action = Write(req: Request, env: Env) | GetDebt(id: string, user: string) | Evict(id: string)

  type Effects = Outcome<Tables, Response, Error>

  /** The cache entry a successful request deletes. */
  function StaleEntry(req: Request): set<string> {
    match req
    case UpdateDebt(id, _, _) => {id}
    case RegisterPayment(debt, _, _, _, _) => {debt}
    case _ => {}
  }

  /** What becomes of the cache once the database has answered. */
  function Settled(cache: map<string, Debt>, req: Request, out: Effect): Effects {
    Outcome(Tables(out.data, if out.result.Ok? then cache - StaleEntry(req) else cache), out.result)
  }

  /** A delete drops its cache entry first, the other requests after they succeeded. */
  function ServeWrite(t: Tables, req: Request, env: Env): Effects {
    Settled(if req.DeleteDebt? then t.cache - {req.id} else t.cache, req, Apply(t.db, req, env))
  }

  function ReadDebt(t: Tables, id: string, user: string): Effects {
    if id in t.cache then Outcome(t, Ok(DebtResponse(id, t.cache[id])))
    else match FindDebt(t.db, id, user)
      case None => Outcome(t, Err(NotFound))
      case Some(d) => Outcome(t.(cache := t.cache[id := d]), Ok(DebtResponse(id, d)))
  }

  function Serve(t: Tables, a: Action): Effects {
    match a
    case Write(req, env) => ServeWrite(t, req, env)
    case GetDebt(id, user) => ReadDebt(t, id, user)
    case Evict(id) => Outcome(t.(cache := t.cache - {id}), Ok(NoContent))
  }

  type Keyed = Idempotency.Keyed<Action>

  type State = Idempotency.Store<Tables, Response>

  const EMPTY_STATE: State := Idempotency.Store(Tables(EMPTY_LEDGER, map[]), map[])

  class Service {
    var debts: map<string, Debt>
    var payments: map<string, Payment>
    var schedules: map<string, Schedule>
    var outbox: seq<Event>
    var cache: map<string, Debt>
    var responses: map<string, Response>

    function Db(): Ledger
      reads this
    {
      Ledger(debts, payments, schedules, outbox)
    }

    function Snapshot(): State
      reads this
    {
      Idempotency.Store(Tables(Db(), cache), responses)
    }

    constructor ()
      ensures Snapshot() == EMPTY_STATE
    {
      debts, payments, schedules, outbox, cache, responses := map[], map[], map[], [], map[], map[];
    }

    method Rollback(begin: Ledger)
      modifies this`debts, this`payments, this`schedules, this`outbox
      ensures Db() == begin
    {
      debts, payments, schedules, outbox := begin.debts, begin.payments, begin.schedules, begin.outbox;
    }

    method Remember(c: Keyed, resp: Response)
      modifies this`responses
      ensures responses
        == if c.key != "" && c.writable && c.key !in old(responses) then old(responses)[c.key := resp]
          else old(responses)
    {
      if c.key != "" && c.writable && c.key !in responses { // SETNX
        responses := responses[c.key := resp];
      }
    }

    method SaveAmortization(id: string, debt: Debt, env: Env) returns (err: Option<Error>)
      modifies this`schedules
      ensures
        var saved := ScheduleSaved(old(schedules), id, PlanOf(debt), env);
        if saved.Ok? then err == None && schedules == saved.value
        else err == Some(saved.error) && schedules == old(schedules)
    {
      var plan := DebtSchedules.SaveAmortization(debt.total, debt.interestRate, debt.startDate, debt.expectedEnd,
                                                 env.repository);
      if plan.Err? { return Some(InvalidDate); }
      if plan.value.None? { return None; }
      if env.fault == 2 { return Some(StoreFailure); }
      schedules := schedules[id := plan.value.value];
      return None;
    }

    method RefreshAmortization(id: string, debt: Debt, env: Env) returns (err: Option<Error>)
      modifies this`schedules
      ensures
        var saved := ScheduleRefreshed(old(schedules), id, WantsSchedule(debt), PlanOf(debt), env);
        if saved.Ok? then err == None && schedules == saved.value
        else err == Some(saved.error) && schedules == old(schedules)
    {
      if !env.repository { return None; }
      if debt.interestRate > 0 && debt.expectedEnd != "" && debt.startDate != "" {
        err := SaveAmortization(id, debt, env);
      } else {
        if env.fault != 2 { schedules := schedules - {id}; }
        return None;
      }
    }

    /** The transactions of CreateDebt and UpdateDebt; on an error the caller rolls back. */
    method StoreTx(id: string, debt: Debt, isNew: bool, event: Event, env: Env) returns (err: Option<Error>)
      requires !isNew || id !in debts
      modifies this`debts, this`schedules, this`outbox
      ensures
        var l := old(Db());
        var saved := if isNew then ScheduleSaved(l.schedules, id, PlanOf(debt), env)
                     else ScheduleRefreshed(l.schedules, id, WantsSchedule(debt), PlanOf(debt), env);
        var out := Stored(l, id, debt, saved, event, env);
        if out.result.Ok? then err == None && Db() == out.data else err == Some(out.result.error)
    {
      if env.fault == 1 { return Some(StoreFailure); }
      debts := debts[id := debt];
      if isNew {
        err := SaveAmortization(id, debt, env);
      } else {
        err := RefreshAmortization(id, debt, env);
      }
      if err.Some? { return; }
      if env.fault == 3 { return Some(StoreFailure); }
      outbox := outbox + [event];
      if env.fault == 4 { return Some(StoreFailure); }
      return None;
    }

    /** CreateDebt without its key. */
    method Create(req: Request, env: Env) returns (r: Result<Response, Error>)
      requires req.CreateDebt?
      modifies this`debts, this`payments, this`schedules, this`outbox
      ensures Outcome(Db(), r) == ApplyCreate(old(Db()), req, env)
    {
      var made := NewDebt(req.user, req.name, req.description, req.debtType, req.total, req.interestRate, req.startDate,
                          req.expectedEnd, req.status, req.creditor);
      if made.Err? { return Err(made.error); }
      var debt := made.value;
      if env.newId in debts { return Err(StoreFailure); }
      var begin := Db();
      var err := StoreTx(env.newId, debt, true,
                         DebtCreated(env.newId, debt.user, debt.total, debt.remaining, debt.status), env);
      if err.Some? {
        Rollback(begin);
        return Err(err.value);
      }
      return Ok(DebtResponse(env.newId, debt));
    }

    /** UpdateDebt without its key. */
    method Update(req: Request, env: Env) returns (r: Result<Response, Error>)
      requires req.UpdateDebt?
      modifies this`debts, this`payments, this`schedules, this`outbox
      ensures Outcome(Db(), r) == ApplyUpdateDebt(old(Db()), req, env)
    {
      var found := FindDebt(Db(), req.id, req.user);
      if found.None? { return Err(NotFound); }
      if req.change.debtType.Some? && !ValidDebtType(req.change.debtType.value) { return Err(InvalidDebtType); }
      var debt := new DebtEntity(found.value);
      var err := debt.ApplyUpdate(req.change.(user := req.user));
      if err.Some? { return Err(err.value); }
      var begin := Db();
      err := StoreTx(req.id, debt.row, false, DebtUpdated(req.id, debt.row.user, debt.row.status), env);
      if err.Some? {
        Rollback(begin);
        return Err(err.value);
      }
      return Ok(DebtResponse(req.id, debt.row));
    }

    /** The transaction of RegisterPayment: the debt is read inside it and the payment saved before the debt. */
    method RegisterTx(req: Request, payment: Payment, env: Env) returns (err: Option<Error>)
      requires req.RegisterPayment? && NewPayment(req.debt, req.user, req.amount, req.date, req.notes) == Ok(payment)
      modifies this`debts, this`payments, this`outbox
      ensures
        var out := ApplyRegister(old(Db()), req, env);
        if out.result.Ok? then err == None && Db() == out.data else err == Some(out.result.error)
    {
      var found := FindDebt(Db(), req.debt, req.user);
      if found.None? { return Some(NotFound); }
      var debt := new DebtEntity(found.value);
      err := debt.ApplyPayment(req.amount);
      if err.Some? { return; }
      if env.newId in payments || env.fault == 1 { return Some(StoreFailure); }
      payments := payments[env.newId := payment];
      if env.fault == 2 { return Some(StoreFailure); }
      debts := debts[req.debt := debt.row];
      if env.fault == 3 { return Some(StoreFailure); }
      outbox := outbox + [PaymentRegistered(req.debt, req.user, env.newId, req.amount, debt.row.remaining,
                                            debt.row.status)];
      if env.fault == 4 { return Some(StoreFailure); }
      return None;
    }

    /** RegisterPayment without its key. */
    method Register(req: Request, env: Env) returns (r: Result<Response, Error>)
      requires req.RegisterPayment?
      modifies this`debts, this`payments, this`schedules, this`outbox
      ensures Outcome(Db(), r) == ApplyRegister(old(Db()), req, env)
    {
      var payment := NewPayment(req.debt, req.user, req.amount, req.date, req.notes);
      if payment.Err? { return Err(payment.error); }
      var begin := Db();
      var err := RegisterTx(req, payment.value, env);
      if err.Some? {
        Rollback(begin);
        return Err(err.value);
      }
      return Ok(PaymentResponse(env.newId, payment.value));
    }

    method CreateDebt(c: Keyed) returns (r: Result<Response, Error>)
      requires c.request.Write? && c.request.req.CreateDebt?
      modifies this
      ensures Idempotency.Answer(Snapshot(), r) == Idempotency.Handle(Serve, old(Snapshot()), c)
    {
      if c.key != "" && c.readable && c.key in responses { return Ok(responses[c.key]); }
      r := Create(c.request.req, c.request.env);
      if r.Err? { return; }
      Remember(c, r.value);
      assert cache - StaleEntry(c.request.req) == cache;
    }

    method UpdateDebt(c: Keyed) returns (r: Result<Response, Error>)
      requires c.request.Write? && c.request.req.UpdateDebt?
      modifies this
      ensures Idempotency.Answer(Snapshot(), r) == Idempotency.Handle(Serve, old(Snapshot()), c)
    {
      if c.key != "" && c.readable && c.key in responses { return Ok(responses[c.key]); }
      r := Update(c.request.req, c.request.env);
      if r.Err? { return; }
      Remember(c, r.value);
      cache := cache - {c.request.req.id};
    }

    method RegisterPayment(c: Keyed) returns (r: Result<Response, Error>)
      requires c.request.Write? && c.request.req.RegisterPayment?
      modifies this
      ensures Idempotency.Answer(Snapshot(), r) == Idempotency.Handle(Serve, old(Snapshot()), c)
    {
      if c.key != "" && c.readable && c.key in responses { return Ok(responses[c.key]); }
      r := Register(c.request.req, c.request.env);
      if r.Err? { return; }
      Remember(c, r.value);
      cache := cache - {c.request.req.debt};
    }

    /** Deletes take no key. */
    method DeleteDebt(req: Request, env: Env) returns (r: Result<Response, Error>)
      requires req.DeleteDebt?
      modifies this
      ensures
        Idempotency.Answer(Snapshot(), r)
        == Idempotency.Handle(Serve, old(Snapshot()), Idempotency.Keyed("", Write(req, env), true, true))
    {
      cache := cache - {req.id};
      var begin := Db();
      var failed := env.fault == 1;
      if !failed {
        if req.id in debts && debts[req.id].user == req.user && !debts[req.id].deleted {
          debts := debts[req.id := debts[req.id].(deleted := true)];
        }
        failed := env.fault == 2;
      }
      if !failed {
        outbox := outbox + [DebtDeleted(req.id, req.user)];
        failed := env.fault == 3;
      }
      if failed {
        Rollback(begin);
        return Err(StoreFailure);
      }
      assert cache - StaleEntry(req) == cache;
      return Ok(NoContent);
    }

    method GetDebt(id: string, user: string) returns (r: Result<Response, Error>)
      modifies this`cache
      ensures
        Idempotency.Answer(Snapshot(), r)
        == Idempotency.Handle(Serve, old(Snapshot()), Idempotency.Keyed("", Action.GetDebt(id, user), true, true))
    {
      if id in cache { return Ok(DebtResponse(id, cache[id])); }
      var found := FindDebt(Db(), id, user);
      if found.None? { return Err(NotFound); }
      cache := cache[id := found.value];
      return Ok(DebtResponse(id, found.value));
    }
  }

  // ---------------------------------------------------------------- the cache

  /** Every cached debt is the stored one, and that one is live. */
  predicate CacheOk(t: Tables) {
    forall id :: id in t.cache ==> id in t.db.debts && t.cache[id] == t.db.debts[id] && !t.cache[id].deleted
  }

  /** A request that goes through changes only the debt it names, or adds one. */
  lemma OnlyNamedChanges(l: Ledger, req: Request, env: Env, id: string)
    requires id in l.debts
    requires !(req.UpdateDebt? && req.id == id) && !(req.DeleteDebt? && req.id == id)
      && !(req.RegisterPayment? && req.debt == id)
    ensures id in Apply(l, req, env).data.debts && Apply(l, req, env).data.debts[id] == l.debts[id]
  {
  }

  lemma WriteKeepsCache(t: Tables, req: Request, env: Env)
    requires CacheOk(t)
    ensures CacheOk(ServeWrite(t, req, env).data)
  {
    var t' := ServeWrite(t, req, env).data;
    forall id | id in t'.cache ensures id in t'.db.debts && t'.cache[id] == t'.db.debts[id] && !t'.cache[id].deleted {
      if Apply(t.db, req, env).result.Ok? {
        OnlyNamedChanges(t.db, req, env, id);
      } else {
        FailureKeeps(t.db, req, env);
      }
    }
  }

  lemma FailureKeeps(l: Ledger, req: Request, env: Env)
    requires Apply(l, req, env).result.Err?
    ensures Apply(l, req, env).data == l
  {
  }

  lemma {:induction false} PlainKeepsCache(t: Tables, actions: seq<Action>)
    requires CacheOk(t)
    ensures CacheOk(Idempotency.RunPlain(Serve, t, actions))
    decreases |actions|
  {
    if actions != [] {
      if actions[0].Write? { WriteKeepsCache(t, actions[0].req, actions[0].env); }
      PlainKeepsCache(Serve(t, actions[0]).data, actions[1..]);
    }
  }

  /** In every history, retries and expiring keys included, a cached debt is the stored one: what a read answers from
      the cache is what the owner would get from the database at that moment. */
  lemma CachedDebtIsCurrent(steps: seq<Idempotency.Step<Action>>, id: string)
    requires id in Idempotency.Run(Serve, EMPTY_STATE, steps).data.cache
    ensures
      var t := Idempotency.Run(Serve, EMPTY_STATE, steps).data;
      id in t.db.debts && FindDebt(t.db, id, t.db.debts[id].user) == Some(t.cache[id])
  {
    Idempotency.HistoryIsPlain(Serve, EMPTY_STATE, steps);
    PlainKeepsCache(EMPTY_STATE.data, Idempotency.Served(Serve, EMPTY_STATE, steps));
  }

  /** A cached debt survives a write untouched unless the write is a delete of it, or a successful update of it or
      payment on it. */
  lemma DropsExactly(t: Tables, req: Request, env: Env, id: string)
    requires id in t.cache
    ensures
      var out := ServeWrite(t, req, env);
      && (id !in out.data.cache <==>
            || (req.DeleteDebt? && req.id == id)
            || (out.result.Ok? && req.UpdateDebt? && req.id == id)
            || (out.result.Ok? && req.RegisterPayment? && req.debt == id))
      && (id in out.data.cache ==> out.data.cache[id] == t.cache[id])
  {
  }

  /** A read succeeds exactly for a cached debt or the user's live one, answers the stored row and leaves it cached. */
  lemma ReadExactly(t: Tables, id: string, user: string)
    requires CacheOk(t)
    ensures
      var out := ReadDebt(t, id, user);
      && (out.result.Ok? <==> id in t.cache || FindDebt(t.db, id, user).Some?)
      && (out.result.Err? ==> out == Outcome(t, Err(NotFound)))
      && (out.result.Ok? ==>
            && id in t.db.debts && out.result.value == DebtResponse(id, t.db.debts[id]) && !t.db.debts[id].deleted
            && out.data.db == t.db && id in out.data.cache)
  {
  }

  // ---------------------------------------------------------------- the database behind it

  /** The database calls among some actions. */
  function Calls(actions: seq<Action>): seq<Call> {
    if actions == [] then []
    else
      var rest := Calls(actions[1..]);
      if actions[0].Write? then [Call(actions[0].req, actions[0].env)] + rest else rest
  }

  lemma {:induction false} PlainRunsDatabase(t: Tables, actions: seq<Action>)
    ensures Idempotency.RunPlain(Serve, t, actions).db == Run(t.db, Calls(actions))
    decreases |actions|
  {
    if actions != [] {
      PlainRunsDatabase(Serve(t, actions[0]).data, actions[1..]);
      if actions[0].Write? {
        var call := Call(actions[0].req, actions[0].env);
        assert ([call] + Calls(actions[1..]))[1..] == Calls(actions[1..]);
      }
    }
  }

  /** Every history of the whole service is a history of its database, so the laws of all database runs hold behind keys
      and cache too: here the balance of every debt. */
  lemma ServiceBalances(steps: seq<Idempotency.Step<Action>>, d: string)
    requires d in Idempotency.Run(Serve, EMPTY_STATE, steps).data.db.debts
    ensures
      var l := Idempotency.Run(Serve, EMPTY_STATE, steps).data.db;
      && l.debts[d].remaining + Paid(l.payments, d) == CreatedAmount(l.outbox, d)
      && 0 <= l.debts[d].remaining
      && (l.debts[d].remaining == 0 ==> l.debts[d].status == PaidOff)
  {
    Idempotency.HistoryIsPlain(Serve, EMPTY_STATE, steps);
    var actions := Idempotency.Served(Serve, EMPTY_STATE, steps);
    PlainRunsDatabase(EMPTY_STATE.data, actions);
    DebtsBalance(Calls(actions), d);
  }
}
