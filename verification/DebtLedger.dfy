/** The debt service as a step function on its database: every write request is one atomic transaction that commits
    wholly or not at all. */
module DebtLedger {
  import opened Common
  import opened MapSums
  import opened Amortization
  import DebtSchedules
  import opened DebtEntities

  datatype Event =
    | DebtCreated(id: string, user: string, total: int, remaining: int, status: Status)
    | DebtUpdated(id: string, user: string, status: Status)
    | DebtDeleted(id: string, user: string)
    | PaymentRegistered(id: string, user: string, payment: string, amount: int, remaining: int, status: Status)

  datatype Ledger = Ledger(
    debts: map<string, Debt>, payments: map<string, Payment>, schedules: map<string, Schedule>, outbox: seq<Event>)

  const EMPTY_LEDGER := Ledger(map[], map[], map[], [])

  datatype Request =
    | CreateDebt(user: string, name: string, description: string, debtType: string, total: int, interestRate: int,
                 startDate: string, expectedEnd: string, status: Status, creditor: string)
    | UpdateDebt(id: string, user: string, change: DebtUpdate)
    | DeleteDebt(id: string, user: string)
    | RegisterPayment(debt: string, user: string, amount: int, date: string, notes: string)

  /** The generated id, the write the database refuses if any (the second one of a creation or an update is the one to
      the schedule, when there is one), and whether the service has an amortization repository. */
  datatype Env = Env(newId: string, fault: nat, repository: bool)

  datatype Response = DebtResponse(id: string, debt: Debt) | PaymentResponse(id: string, payment: Payment) | NoContent

  type Effect = Outcome<Ledger, Response, Error>

  function Fail(l: Ledger, e: Error): Effect {
    Outcome(l, Err(e))
  }

  function FindDebt(l: Ledger, id: string, user: string): Option<Debt> {
    if id in l.debts && l.debts[id].user == user && !l.debts[id].deleted then Some(l.debts[id]) else None
  }

  // ---------------------------------------------------------------- schedules

  /** The schedule a debt should have. */
  function PlanOf(d: Debt): Result<Option<Schedule>, Error> {
    match DebtSchedules.Plan(d.total, d.interestRate, d.startDate, d.expectedEnd)
    case Err(_) => Err(InvalidDate)
    case Ok(plan) => Ok(plan)
  }

  /** Rate and dates that call for a schedule. */
  predicate WantsSchedule(d: Debt) {
    d.interestRate > 0 && d.expectedEnd != "" && d.startDate != ""
  }

  /** saveAmortization, for what the plan says: one that asks for no schedule leaves whatever is stored. */
  function ScheduleSaved(schedules: map<string, Schedule>, id: string, plan: Result<Option<Schedule>, Error>, env: Env)
    : Result<map<string, Schedule>, Error>
  {
    if !env.repository then Ok(schedules)
    else match plan
      case Err(e) => Err(e)
      case Ok(None) => Ok(schedules)
      case Ok(Some(schedule)) => if env.fault == 2 then Err(StoreFailure) else Ok(schedules[id := schedule])
  }

  /** The schedule step of an update; a delete that fails is ignored. */
  function ScheduleRefreshed(schedules: map<string, Schedule>, id: string, wanted: bool,
                             plan: Result<Option<Schedule>, Error>, env: Env): Result<map<string, Schedule>, Error>
  {
    if env.repository && !wanted then Ok(if env.fault == 2 then schedules else schedules - {id})
    else ScheduleSaved(schedules, id, plan, env)
  }

  // ---------------------------------------------------------------- the operations

  /** Writes: the debt, its schedule, the event, the commit. */
  function Stored(l: Ledger, id: string, d: Debt, schedules: Result<map<string, Schedule>, Error>, e: Event,
                  env: Env): Effect {
    if env.fault == 1 then Fail(l, StoreFailure)
    else match schedules
      case Err(err) => Fail(l, err)
      case Ok(stored) =>
        if env.fault == 3 || env.fault == 4 then Fail(l, StoreFailure)
        else
          Outcome(l.(debts := l.debts[id := d], schedules := stored, outbox := l.outbox + [e]), Ok(DebtResponse(id, d)))
  }

  function ApplyCreate(l: Ledger, req: Request, env: Env): Effect
    requires req.CreateDebt?
  {
    match NewDebt(req.user, req.name, req.description, req.debtType, req.total, req.interestRate, req.startDate,
                  req.expectedEnd, req.status, req.creditor)
    case Err(e) => Fail(l, e)
    case Ok(d) =>
      if env.newId in l.debts then Fail(l, StoreFailure)
      else
        Stored(l, env.newId, d, ScheduleSaved(l.schedules, env.newId, PlanOf(d), env),
               DebtCreated(env.newId, d.user, d.total, d.remaining, d.status), env)
  }

  /** The type is converted before anything else of the change is looked at. */
  function ChangeError(d: Debt, change: DebtUpdate): Option<Error> {
    if change.debtType.Some? && !ValidDebtType(change.debtType.value) then Some(InvalidDebtType)
    else UpdateError(d, change)
  }

  function ApplyUpdateDebt(l: Ledger, req: Request, env: Env): Effect
    requires req.UpdateDebt?
  {
    match FindDebt(l, req.id, req.user)
    case None => Fail(l, NotFound)
    case Some(d) =>
      var change := req.change.(user := req.user);
      if ChangeError(d, change).Some? then Fail(l, ChangeError(d, change).value)
      else
        var d' := Updated(d, change);
        Stored(l, req.id, d', ScheduleRefreshed(l.schedules, req.id, WantsSchedule(d'), PlanOf(d'), env),
               DebtUpdated(req.id, d'.user, d'.status), env)
  }

  function ApplyDelete(l: Ledger, req: Request, env: Env): Effect
    requires req.DeleteDebt?
  {
    if 1 <= env.fault <= 3 then Fail(l, StoreFailure)
    else
      var debts := match FindDebt(l, req.id, req.user)
                   case None => l.debts
                   case Some(d) => l.debts[req.id := d.(deleted := true)];
      Outcome(l.(debts := debts, outbox := l.outbox + [DebtDeleted(req.id, req.user)]), Ok(NoContent))
  }

  function ApplyRegister(l: Ledger, req: Request, env: Env): Effect
    requires req.RegisterPayment?
  {
    match NewPayment(req.debt, req.user, req.amount, req.date, req.notes)
    case Err(e) => Fail(l, e)
    case Ok(payment) =>
      match FindDebt(l, req.debt, req.user)
      case None => Fail(l, NotFound)
      case Some(d) =>
        if PaymentError(d, req.amount).Some? then Fail(l, PaymentError(d, req.amount).value)
        else if env.newId in l.payments || 1 <= env.fault <= 4 then Fail(l, StoreFailure)
        else
          var d' := PaidDown(d, req.amount);
          Outcome(l.(debts := l.debts[req.debt := d'], payments := l.payments[env.newId := payment],
                     outbox := l.outbox + [PaymentRegistered(req.debt, req.user, env.newId, req.amount, d'.remaining,
                                                             d'.status)]),
                  Ok(PaymentResponse(env.newId, payment)))
  }

  function Apply(l: Ledger, req: Request, env: Env): Effect {
    match req
    case CreateDebt(_, _, _, _, _, _, _, _, _, _) => ApplyCreate(l, req, env)
    case UpdateDebt(_, _, _) => ApplyUpdateDebt(l, req, env)
    case DeleteDebt(_, _) => ApplyDelete(l, req, env)
    case RegisterPayment(_, _, _, _, _) => ApplyRegister(l, req, env)
  }

  datatype Call = Call(req: Request, env: Env)

  function Run(l: Ledger, calls: seq<Call>): Ledger
    decreases |calls|
  {
    if calls == [] then l else Run(Apply(l, calls[0].req, calls[0].env).data, calls[1..])
  }

  // ---------------------------------------------------------------- what every run keeps

  function PaymentsOn(payments: map<string, Payment>, debt: string): map<string, int> {
    map p | p in payments && payments[p].debt == debt :: payments[p].amount
  }

  ghost function Paid(payments: map<string, Payment>, debt: string): int {
    Sum(PaymentsOn(payments, debt))
  }

  /** The amount a debt was created with, according to the outbox. */
  function CreatedAmount(events: seq<Event>, id: string): int {
    if events == [] then 0
    else
      var e := events[|events| - 1];
      CreatedAmount(events[..|events| - 1], id) + (if e.DebtCreated? && e.id == id then e.total else 0)
  }

  lemma CreatedSnoc(events: seq<Event>, e: Event, id: string)
    ensures CreatedAmount(events + [e], id)
      == CreatedAmount(events, id) + (if e.DebtCreated? && e.id == id then e.total else 0)
  {
    assert (events + [e])[..|events|] == events;
  }

  lemma {:induction false} NotCreated(events: seq<Event>, id: string)
    requires forall k :: 0 <= k < |events| && events[k].DebtCreated? ==> events[k].id != id
    ensures CreatedAmount(events, id) == 0
  {
    if events != [] { NotCreated(events[..|events| - 1], id); }
  }

  lemma PaidPut(payments: map<string, Payment>, p: string, payment: Payment, debt: string)
    requires p !in payments
    ensures Paid(payments[p := payment], debt)
      == Paid(payments, debt) + (if payment.debt == debt then payment.amount else 0)
  {
    var before := PaymentsOn(payments, debt);
    if payment.debt == debt {
      assert PaymentsOn(payments[p := payment], debt) == before[p := payment.amount];
      SumPut(before, p, payment.amount);
    } else {
      assert PaymentsOn(payments[p := payment], debt) == before;
    }
  }

  predicate DebtOk(d: Debt) {
    0 <= d.remaining && (d.remaining == 0 ==> d.status == PaidOff)
  }

  /** What remains and what was paid make up the amount at creation, whatever the total was edited to. */
  ghost predicate Balanced(l: Ledger, d: string)
    requires d in l.debts
  {
    l.debts[d].remaining + Paid(l.payments, d) == CreatedAmount(l.outbox, d)
  }

  ghost predicate Inv(l: Ledger) {
    && (forall d :: d in l.debts ==> DebtOk(l.debts[d]))
    && (forall d {:trigger Balanced(l, d)} :: d in l.debts ==> Balanced(l, d))
    && (forall p :: p in l.payments ==> l.payments[p].debt in l.debts)
    && (forall k :: 0 <= k < |l.outbox| && l.outbox[k].DebtCreated? ==> l.outbox[k].id in l.debts)
    && l.schedules.Keys <= l.debts.Keys
  }

  /** A row written without touching payments or creations. */
  lemma RowKeeps(l: Ledger, l': Ledger, id: string, d: Debt, e: Event)
    requires Inv(l) && id in l.debts && DebtOk(d) && d.remaining == l.debts[id].remaining
    requires l'.debts == l.debts[id := d] && l'.payments == l.payments && l'.schedules.Keys <= l.schedules.Keys + {id}
    requires l'.outbox == l.outbox + [e] && !e.DebtCreated?
    ensures Inv(l')
  {
    forall i | i in l'.debts ensures Balanced(l', i) {
      CreatedSnoc(l.outbox, e, i);
      assert Balanced(l, i);
    }
  }

  lemma AddedKeeps(l: Ledger, l': Ledger, id: string, d: Debt, e: Event)
    requires Inv(l) && id !in l.debts && DebtOk(d)
    requires l'.debts == l.debts[id := d] && l'.payments == l.payments && l'.schedules.Keys <= l.schedules.Keys + {id}
    requires l'.outbox == l.outbox + [e] && e.DebtCreated? && e.id == id && e.total == d.remaining
    ensures Inv(l')
  {
    NotCreated(l.outbox, id);
    assert PaymentsOn(l.payments, id) == map[];
    forall i | i in l'.debts ensures Balanced(l', i) {
      CreatedSnoc(l.outbox, e, i);
      if i in l.debts { assert Balanced(l, i); }
    }
  }

  lemma CreateKeeps(l: Ledger, req: Request, env: Env)
    requires Inv(l) && req.CreateDebt?
    ensures Inv(ApplyCreate(l, req, env).data)
  {
    var out := ApplyCreate(l, req, env);
    if out.result.Ok? {
      AddedKeeps(l, out.data, env.newId, out.result.value.debt, out.data.outbox[|l.outbox|]);
    }
  }

  lemma UpdatedOk(d: Debt, u: DebtUpdate)
    requires DebtOk(d) && UpdateError(d, u) == None
    ensures DebtOk(Updated(d, u))
  {
  }

  lemma StoredKeeps(l: Ledger, id: string, d: Debt, schedules: Result<map<string, Schedule>, Error>, e: Event, env: Env)
    requires Inv(l) && id in l.debts && DebtOk(d) && d.remaining == l.debts[id].remaining && !e.DebtCreated?
    requires schedules.Ok? ==> schedules.value.Keys <= l.schedules.Keys + {id}
    ensures Inv(Stored(l, id, d, schedules, e, env).data)
  {
    var out := Stored(l, id, d, schedules, e, env);
    if out.result.Ok? { RowKeeps(l, out.data, id, d, e); }
  }

  lemma UpdateKeeps(l: Ledger, req: Request, env: Env)
    requires Inv(l) && req.UpdateDebt?
    ensures Inv(ApplyUpdateDebt(l, req, env).data)
  {
    var change := req.change.(user := req.user);
    if FindDebt(l, req.id, req.user).Some? && ChangeError(l.debts[req.id], change) == None {
      UpdatedOk(l.debts[req.id], change);
      var d' := Updated(l.debts[req.id], change);
      StoredKeeps(l, req.id, d', ScheduleRefreshed(l.schedules, req.id, WantsSchedule(d'), PlanOf(d'), env),
                  DebtUpdated(req.id, d'.user, d'.status), env);
    }
  }

  lemma DeleteKeeps(l: Ledger, req: Request, env: Env)
    requires Inv(l) && req.DeleteDebt?
    ensures Inv(ApplyDelete(l, req, env).data)
  {
    var out := ApplyDelete(l, req, env);
    if out.result.Ok? {
      if FindDebt(l, req.id, req.user).Some? {
        RowKeeps(l, out.data, req.id, out.data.debts[req.id], out.data.outbox[|l.outbox|]);
      } else {
        DeleteMissKeeps(l, out.data, DebtDeleted(req.id, req.user));
      }
    }
  }

  lemma RegisterKeeps(l: Ledger, req: Request, env: Env)
    requires Inv(l) && req.RegisterPayment?
    ensures Inv(ApplyRegister(l, req, env).data)
  {
    var out := ApplyRegister(l, req, env);
    if out.result.Ok? {
      var l', e, payment := out.data, out.data.outbox[|l.outbox|], out.data.payments[env.newId];
      assert DebtOk(l.debts[req.debt]);
      forall i | i in l'.debts ensures Balanced(l', i) {
        CreatedSnoc(l.outbox, e, i);
        PaidPut(l.payments, env.newId, payment, i);
        assert Balanced(l, i);
      }
    }
  }

  lemma ApplyKeeps(l: Ledger, req: Request, env: Env)
    requires Inv(l)
    ensures Inv(Apply(l, req, env).data)
  {
    match req
    case CreateDebt(_, _, _, _, _, _, _, _, _, _) => CreateKeeps(l, req, env);
    case RegisterPayment(_, _, _, _, _) => RegisterKeeps(l, req, env);
    case UpdateDebt(_, _, _) => UpdateKeeps(l, req, env);
    case DeleteDebt(_, _) => DeleteKeeps(l, req, env);
  }

  lemma DeleteMissKeeps(l: Ledger, l': Ledger, e: Event)
    requires Inv(l) && !e.DebtCreated? && l' == l.(outbox := l.outbox + [e])
    ensures Inv(l')
  {
    forall i | i in l'.debts ensures Balanced(l', i) {
      CreatedSnoc(l.outbox, e, i);
      assert Balanced(l, i);
    }
  }

  lemma {:induction false} RunKeeps(l: Ledger, calls: seq<Call>)
    requires Inv(l)
    ensures Inv(Run(l, calls))
    decreases |calls|
  {
    if calls != [] {
      ApplyKeeps(l, calls[0].req, calls[0].env);
      RunKeeps(Apply(l, calls[0].req, calls[0].env).data, calls[1..]);
    }
  }

  /** In every history: what remains plus all registered payments is the debt's amount at creation, even if its total
      was edited later; nothing remaining means paid off. */
  lemma DebtsBalance(calls: seq<Call>, d: string)
    requires d in Run(EMPTY_LEDGER, calls).debts
    ensures
      var l := Run(EMPTY_LEDGER, calls);
      && l.debts[d].remaining + Paid(l.payments, d) == CreatedAmount(l.outbox, d)
      && 0 <= l.debts[d].remaining
      && (l.debts[d].remaining == 0 ==> l.debts[d].status == PaidOff)
  {
    RunKeeps(EMPTY_LEDGER, calls);
    assert Balanced(Run(EMPTY_LEDGER, calls), d);
  }

  predicate Ages(a: Debt, b: Debt) {
    b.remaining <= a.remaining && (a.status == PaidOff ==> b.status == PaidOff && b.remaining == a.remaining)
  }

  lemma UpdateAges(l: Ledger, req: Request, env: Env, d: string)
    requires d in l.debts && req.UpdateDebt?
    ensures d in ApplyUpdateDebt(l, req, env).data.debts && Ages(l.debts[d], ApplyUpdateDebt(l, req, env).data.debts[d])
  {
  }

  lemma ApplyAges(l: Ledger, req: Request, env: Env, d: string)
    requires d in l.debts
    ensures d in Apply(l, req, env).data.debts && Ages(l.debts[d], Apply(l, req, env).data.debts[d])
  {
    if req.UpdateDebt? { UpdateAges(l, req, env, d); }
  }

  /** Paid off is never left, and what remains never grows. */
  lemma {:induction false} PaidOffIsFinal(l: Ledger, calls: seq<Call>, d: string)
    requires d in l.debts
    ensures d in Run(l, calls).debts
    ensures Run(l, calls).debts[d].remaining <= l.debts[d].remaining
    ensures l.debts[d].status == PaidOff ==>
      Run(l, calls).debts[d].status == PaidOff && Run(l, calls).debts[d].remaining == l.debts[d].remaining
    decreases |calls|
  {
    if calls != [] {
      ApplyAges(l, calls[0].req, calls[0].env, d);
      PaidOffIsFinal(Apply(l, calls[0].req, calls[0].env).data, calls[1..], d);
    }
  }

  /** Settled and defaulted debts cannot be moved to paid off by an update, yet registering a payment of the rest
      succeeds and stores the debt as paid off. */
  lemma TerminalStatusStillPayable(l: Ledger, id: string, date: string, notes: string, env: Env)
    requires id in l.debts && !l.debts[id].deleted && l.debts[id].remaining > 0
    requires l.debts[id].status == Settled || l.debts[id].status == Defaulted
    requires id != "" && l.debts[id].user != "" && date != "" && env.newId !in l.payments && env.fault == 0
    ensures
      var d := l.debts[id];
      var pay := ApplyRegister(l, RegisterPayment(id, d.user, d.remaining, date, notes), env);
      && pay.result.Ok? && id in pay.data.debts
      && pay.data.debts[id] == d.(remaining := 0, status := PaidOff)
    ensures forall change: DebtUpdate :: change.status == Some(PaidOff) ==>
      ApplyUpdateDebt(l, UpdateDebt(id, l.debts[id].user, change), env).result.Err?
  {
  }

  // ---------------------------------------------------------------- stored schedules

  /** The stored schedule is the planned one, or there is none and there should be none. */
  predicate Matches(plan: Result<Option<Schedule>, Error>, schedules: map<string, Schedule>, id: string) {
    plan == Ok(if id in schedules then Some(schedules[id]) else None)
  }

  predicate Fresh(l: Ledger, id: string)
    requires id in l.debts
  {
    Matches(PlanOf(l.debts[id]), l.schedules, id)
  }

  predicate AllFresh(l: Ledger) {
    && (forall id :: id in l.debts ==> Fresh(l, id))
    && l.schedules.Keys <= l.debts.Keys
  }

  /** The dates parse, but the monthly payment rounds to less than a cent. */
  predicate RoundsToNothing(d: Debt) {
    && DebtSchedules.MonthsBetween(d.startDate, d.expectedEnd).Ok?
    && var months := DebtSchedules.MonthsBetween(d.startDate, d.expectedEnd).value;
    && d.interestRate > 0 && ComputeMonthlyPayment(d.total, d.interestRate, months) <= 0
  }

  /** An update that goes through on a debt with a stored schedule, after which the payment rounds to nothing, or which
      should have removed the schedule and could not. */
  predicate LeavesStale(l: Ledger, req: Request, env: Env) {
    && req.UpdateDebt? && req.id in l.schedules && FindDebt(l, req.id, req.user).Some?
    && var d, change := l.debts[req.id], req.change.(user := req.user);
    && ChangeError(d, change) == None && env.fault !in {1, 3, 4}
    && var d' := Updated(d, change);
    && (if WantsSchedule(d') then RoundsToNothing(d') else env.fault == 2)
  }

  /** The schedule step of an update, for any plan. */
  lemma RefreshMatches(schedules: map<string, Schedule>, id: string, wanted: bool,
                       plan: Result<Option<Schedule>, Error>, env: Env)
    requires env.repository && (!wanted ==> plan == Ok(None))
    requires ScheduleRefreshed(schedules, id, wanted, plan, env).Ok?
    ensures
      var stored := ScheduleRefreshed(schedules, id, wanted, plan, env).value;
      && (Matches(plan, stored, id) <==> !(id in schedules && (if wanted then plan == Ok(None) else env.fault == 2)))
      && stored.Keys <= schedules.Keys + {id}
      && forall i :: i != id ==> (i in stored <==> i in schedules) && (i in schedules ==> stored[i] == schedules[i])
  {
  }

  lemma StoredFresh(l: Ledger, l': Ledger, id: string)
    requires AllFresh(l) && id in l'.debts && l'.debts == l.debts[id := l'.debts[id]]
    requires l'.schedules.Keys <= l.schedules.Keys + {id}
    requires forall i :: i != id ==>
      (i in l'.schedules <==> i in l.schedules) && (i in l.schedules ==> l'.schedules[i] == l.schedules[i])
    ensures AllFresh(l') <==> Fresh(l', id)
  {
    forall i | i in l'.debts && i != id ensures Fresh(l', i) { assert Fresh(l, i); }
  }

  /** A debt stored with its schedule, whatever the plan says and the schedule step makes of it. */
  lemma StoredMatches(l: Ledger, id: string, d: Debt, stored: Result<map<string, Schedule>, Error>, e: Event, env: Env)
    requires AllFresh(l) && Stored(l, id, d, stored, e, env).result.Ok?
    requires stored.value.Keys <= l.schedules.Keys + {id}
    requires forall i :: i != id ==>
      (i in stored.value <==> i in l.schedules) && (i in l.schedules ==> stored.value[i] == l.schedules[i])
    ensures AllFresh(Stored(l, id, d, stored, e, env).data) <==> Matches(PlanOf(d), stored.value, id)
  {
    StoredFresh(l, Stored(l, id, d, stored, e, env).data, id);
  }

  lemma UpdateFresh(l: Ledger, req: Request, env: Env)
    requires AllFresh(l) && req.UpdateDebt? && env.repository
    ensures AllFresh(ApplyUpdateDebt(l, req, env).data) <==> !LeavesStale(l, req, env)
  {
    if ApplyUpdateDebt(l, req, env).result.Ok? {
      var d' := Updated(l.debts[req.id], req.change.(user := req.user));
      var wanted, plan := WantsSchedule(d'), PlanOf(d');
      PlanCases(d');
      RefreshMatches(l.schedules, req.id, wanted, plan, env);
      StoredMatches(l, req.id, d', ScheduleRefreshed(l.schedules, req.id, wanted, plan, env),
                    DebtUpdated(req.id, d'.user, d'.status), env);
    }
  }

  lemma CreateFresh(l: Ledger, req: Request, env: Env)
    requires AllFresh(l) && req.CreateDebt? && env.repository
    ensures AllFresh(ApplyCreate(l, req, env).data)
  {
    var out := ApplyCreate(l, req, env);
    if out.result.Ok? {
      var d := out.result.value.debt;
      SavedMatches(l.schedules, env.newId, PlanOf(d), env);
      StoredMatches(l, env.newId, d, ScheduleSaved(l.schedules, env.newId, PlanOf(d), env),
                    out.data.outbox[|l.outbox|], env);
    }
  }

  lemma SavedMatches(schedules: map<string, Schedule>, id: string, plan: Result<Option<Schedule>, Error>, env: Env)
    requires env.repository && id !in schedules && ScheduleSaved(schedules, id, plan, env).Ok?
    ensures
      var stored := ScheduleSaved(schedules, id, plan, env).value;
      Matches(plan, stored, id) && (stored == schedules || (id in stored && stored == schedules[id := stored[id]]))
  {
  }

  lemma PlanCases(d: Debt)
    ensures PlanOf(d) == Ok(None) <==> !WantsSchedule(d) || RoundsToNothing(d)
  {
  }

  lemma RowsFresh(l: Ledger, l': Ledger, i: string, d: Debt)
    requires AllFresh(l) && l'.schedules == l.schedules && i in l.debts && l'.debts == l.debts[i := d]
    requires PlanOf(d) == PlanOf(l.debts[i])
    ensures AllFresh(l')
  {
    forall id | id in l'.debts ensures Fresh(l', id) { assert Fresh(l, id); }
  }

  /** With an amortization repository, a request keeps every stored schedule in step with its debt exactly when it is
      not such an update: saveAmortization returns without touching the old row when the payment rounds to nothing. */
  lemma ScheduleFreshExactly(l: Ledger, req: Request, env: Env)
    requires AllFresh(l) && env.repository
    ensures AllFresh(Apply(l, req, env).data) <==> !LeavesStale(l, req, env)
  {
    var out := Apply(l, req, env);
    match req
    case UpdateDebt(_, _, _) => UpdateFresh(l, req, env);
    case CreateDebt(_, _, _, _, _, _, _, _, _, _) => CreateFresh(l, req, env);
    case RegisterPayment(id, _, _, _, _) =>
      if out.result.Ok? { RowsFresh(l, out.data, id, out.data.debts[id]); }
    case DeleteDebt(id, user) =>
      if out.result.Ok? && FindDebt(l, id, user).Some? { RowsFresh(l, out.data, id, out.data.debts[id]); }
  }

  predicate AlwaysFresh(l: Ledger, calls: seq<Call>)
    decreases |calls|
  {
    AllFresh(l) && (calls != [] ==> AlwaysFresh(Apply(l, calls[0].req, calls[0].env).data, calls[1..]))
  }

  predicate NeverLeavesStale(l: Ledger, calls: seq<Call>)
    decreases |calls|
  {
    calls != [] ==>
      && !LeavesStale(l, calls[0].req, calls[0].env)
      && NeverLeavesStale(Apply(l, calls[0].req, calls[0].env).data, calls[1..])
  }

  /** Over a whole history the schedules are in step at every point exactly when no such update occurs in it. */
  lemma {:induction false} SchedulesStayFresh(l: Ledger, calls: seq<Call>)
    requires AllFresh(l) && forall k :: 0 <= k < |calls| ==> calls[k].env.repository
    ensures AlwaysFresh(l, calls) <==> NeverLeavesStale(l, calls)
    decreases |calls|
  {
    if calls != [] {
      var l' := Apply(l, calls[0].req, calls[0].env).data;
      ScheduleFreshExactly(l, calls[0].req, calls[0].env);
      if AllFresh(l') {
        forall k | 0 <= k < |calls[1..]| ensures calls[1..][k].env.repository { assert calls[1..][k] == calls[k + 1]; }
        SchedulesStayFresh(l', calls[1..]);
      }
    }
  }

  /** A loan of a thousand cents at ten percent a month over three months, with its schedule. */
  function TenPercentLoan(): Ledger {
    Apply(EMPTY_LEDGER, CreateDebt("u", "n", "", "other", 1000, 12000, "2024-01-01", "2024-04-01", Active, ""),
          Env("d", 0, true)).data
  }

  lemma TenPercentLoanStored()
    ensures
      var l := TenPercentLoan();
      && l.debts == map["d" := Debt("u", "n", "", "other", 1000, 1000, 12000, "2024-01-01", "2024-04-01", Active,
                                    "", false)]
      && "d" in l.schedules && AllFresh(l)
  {
    DebtSchedules.JanuaryToApril();
    DebtSchedules.TenPercentOverThreeMonths();
    var loan := CreateDebt("u", "n", "", "other", 1000, 12000, "2024-01-01", "2024-04-01", Active, "");
    CreateFresh(EMPTY_LEDGER, loan, Env("d", 0, true));
  }

  /** The edit of its total to one cent. */
  function CutToOneCent(): Request {
    UpdateDebt("d", "u", DebtUpdate("u", None, None, None, Some(1), None, None, None, None))
  }

  lemma CutLeavesStale(l: Ledger)
    requires l.debts == map["d" := Debt("u", "n", "", "other", 1000, 1000, 12000, "2024-01-01", "2024-04-01",
                                        Active, "", false)]
    requires "d" in l.schedules
    ensures LeavesStale(l, CutToOneCent(), Env("d", 0, true))
  {
    DebtSchedules.JanuaryToApril();
    DebtSchedules.TenPercentOverThreeMonths();
  }

  /** It leaves the schedule of the thousand cents in place. */
  lemma StaleSchedule()
    ensures AllFresh(TenPercentLoan()) && !AllFresh(Apply(TenPercentLoan(), CutToOneCent(), Env("d", 0, true)).data)
  {
    TenPercentLoanStored();
    CutLeavesStale(TenPercentLoan());
    ScheduleFreshExactly(TenPercentLoan(), CutToOneCent(), Env("d", 0, true));
  }
}
