/** What each debt request does to the rows, field by field, and when it is accepted; how a debt gets paid off. */
module DebtEffects {
  import opened Common
  import opened Amortization
  import DebtSchedules
  import opened DebtEntities
  import opened DebtLedger

  /** Exactly the debt types the table's CHECK lists. */
  lemma DebtTypesOfSchema(t: string)
    ensures ValidDebtType(t) <==>
      t in {"personal_loan", "student_loan", "mortgage", "car_loan", "credit_card_debt", "medical_debt", "other"}
  {
  }

  /** The status moves there are. */
  lemma TransitionsAre(from: Status, to: Status)
    ensures TransitionAllowed(from, to) <==>
      (from, to) in {(Active, Paused), (Active, PaidOff), (Active, Defaulted), (Active, Settled), (Paused, Active),
                     (Paused, PaidOff), (Paused, Defaulted), (Paused, Settled), (Defaulted, Settled)}
  {
  }

  // ---------------------------------------------------------------- schedules of a request

  /** The stored schedules differ at most in the debt's own, which is then what its total, rate and dates call for. */
  ghost predicate ScheduleMoves(before: map<string, Schedule>, after: map<string, Schedule>, id: string, d: Debt) {
    && (forall i :: i != id ==> (i in after <==> i in before) && (i in before ==> after[i] == before[i]))
    && (id in after && (id in before ==> after[id] != before[id]) ==>
          var plan := DebtSchedules.Plan(d.total, d.interestRate, d.startDate, d.expectedEnd);
          plan.Ok? && plan.value == Some(after[id]))
  }

  // ---------------------------------------------------------------- creating

  /** A created debt is stored as asked for, all of it remaining; nothing else changes but its schedule. */
  lemma CreateEffect(l: Ledger, req: Request, env: Env)
    requires req.CreateDebt? && Apply(l, req, env).result.Ok?
    ensures env.newId !in l.debts && env.newId in Apply(l, req, env).data.debts
    ensures
      var out := Apply(l, req, env);
      var l', d := out.data, out.data.debts[env.newId];
      && out.result.value == DebtResponse(env.newId, d)
      && d.user == req.user && d.name == req.name && d.description == req.description && d.debtType == req.debtType
      && d.total == req.total && d.remaining == req.total && d.interestRate == req.interestRate
      && d.startDate == req.startDate && d.expectedEnd == req.expectedEnd && d.status == req.status
      && d.creditor == req.creditor && !d.deleted
      && OnlyRow(l.debts, l'.debts, env.newId) && l'.payments == l.payments
      && ScheduleMoves(l.schedules, l'.schedules, env.newId, d) && (!env.repository ==> l'.schedules == l.schedules)
      && l'.outbox == l.outbox + [DebtCreated(env.newId, req.user, req.total, req.total, req.status)]
  {
  }

  /** Dates that are needed for a schedule and do not parse. */
  predicate BadDates(rate: int, start: string, end: string) {
    && rate > 0 && start != "" && end != ""
    && (DebtSchedules.ParseDate(start).None? || DebtSchedules.ParseDate(end).None?)
  }

  /** The schedule is written, and not just left or deleted. */
  predicate WritesSchedule(total: int, rate: int, start: string, end: string) {
    && rate > 0 && start != "" && end != "" && DebtSchedules.MonthsBetween(start, end).Ok?
    && ComputeMonthlyPayment(total, rate, DebtSchedules.MonthsBetween(start, end).value) >= 1
  }

  lemma CreateAcceptedExactly(l: Ledger, req: Request, env: Env)
    requires req.CreateDebt?
    ensures Apply(l, req, env).result.Ok? <==>
      && ValidDebtType(req.debtType) && req.user != "" && req.name != "" && req.total > 0 && req.startDate != ""
      && env.newId !in l.debts && env.fault !in {1, 3, 4}
      && (env.repository ==>
            && !BadDates(req.interestRate, req.startDate, req.expectedEnd)
            && !(env.fault == 2 && WritesSchedule(req.total, req.interestRate, req.startDate, req.expectedEnd)))
  {
    DebtSchedules.PlanExactly(req.total, req.interestRate, req.startDate, req.expectedEnd);
  }

  // ---------------------------------------------------------------- updating

  /** Each given field has the value given and each absent one its old value; what remains, the start date, the owner
      and all other rows stay as they were. */
  lemma UpdateEffect(l: Ledger, req: Request, env: Env)
    requires req.UpdateDebt? && Apply(l, req, env).result.Ok?
    ensures FindDebt(l, req.id, req.user).Some? && req.id in Apply(l, req, env).data.debts
    ensures
      var out, u := Apply(l, req, env), req.change;
      var l', d, d' := out.data, l.debts[req.id], out.data.debts[req.id];
      && out.result.value == DebtResponse(req.id, d')
      && d'.name == (if u.name.Some? then u.name.value else d.name)
      && d'.description == (if u.description.Some? then u.description.value else d.description)
      && d'.debtType == (if u.debtType.Some? then u.debtType.value else d.debtType)
      && d'.total == (if u.total.Some? then u.total.value else d.total)
      && d'.interestRate == (if u.interestRate.Some? then u.interestRate.value else d.interestRate)
      && d'.expectedEnd == (if u.expectedEnd.Some? then u.expectedEnd.value else d.expectedEnd)
      && d'.status == (if u.status.Some? then u.status.value else d.status)
      && d'.creditor == (if u.creditor.Some? then u.creditor.value else d.creditor)
      && d'.remaining == d.remaining && d'.startDate == d.startDate && d'.user == d.user && !d'.deleted
      && OnlyRow(l.debts, l'.debts, req.id) && l'.payments == l.payments
      && l'.outbox == l.outbox + [DebtUpdated(req.id, req.user, d'.status)]
  {
  }

  /** What an update does to the schedules, without a repository nothing. */
  lemma UpdateSchedules(l: Ledger, req: Request, env: Env)
    requires req.UpdateDebt? && Apply(l, req, env).result.Ok?
    ensures req.id in Apply(l, req, env).data.debts
    ensures
      var l' := Apply(l, req, env).data;
      && ScheduleMoves(l.schedules, l'.schedules, req.id, l'.debts[req.id])
      && (!env.repository ==> l'.schedules == l.schedules)
  {
    UpdateEffect(l, req, env);
    var d' := Apply(l, req, env).data.debts[req.id];
    RefreshMoves(l.schedules, req.id, d', env);
  }

  lemma RefreshMoves(schedules: map<string, Schedule>, id: string, d: Debt, env: Env)
    requires ScheduleRefreshed(schedules, id, WantsSchedule(d), PlanOf(d), env).Ok?
    ensures
      var after := ScheduleRefreshed(schedules, id, WantsSchedule(d), PlanOf(d), env).value;
      ScheduleMoves(schedules, after, id, d) && (!env.repository ==> after == schedules)
  {
  }

  lemma UpdateAcceptedExactly(l: Ledger, req: Request, env: Env)
    requires req.UpdateDebt?
    ensures Apply(l, req, env).result.Ok? <==>
      && FindDebt(l, req.id, req.user).Some?
      && ChangeAllowed(l.debts[req.id], req.change) && env.fault !in {1, 3, 4}
      && (env.repository ==> SchedulePossible(l.debts[req.id], req.change, env))
  {
    if FindDebt(l, req.id, req.user).Some? {
      var d := l.debts[req.id];
      var change := req.change.(user := req.user);
      AllowedExactly(d, req.change, req.user);
      if ChangeError(d, change) == None {
        var d' := Updated(d, change);
        DebtSchedules.PlanExactly(d'.total, d'.interestRate, d'.startDate, d'.expectedEnd);
        RefreshExactly(l.schedules, req.id, d', env);
      }
    }
  }

  predicate ChangeAllowed(d: Debt, u: DebtUpdate) {
    && u.name != Some("") && (u.debtType.Some? ==> ValidDebtType(u.debtType.value))
    && (u.total.Some? ==> u.total.value > 0)
    && (u.status.Some? ==> TransitionAllowed(d.status, u.status.value))
  }

  lemma AllowedExactly(d: Debt, u: DebtUpdate, user: string)
    requires d.user == user
    ensures ChangeError(d, u.(user := user)) == None <==> ChangeAllowed(d, u)
  {
  }

  /** The changed debt's dates parse if they are needed, and its schedule, if it is written, is not refused. */
  predicate SchedulePossible(d: Debt, u: DebtUpdate, env: Env) {
    var total, rate := if u.total.Some? then u.total.value else d.total,
                       if u.interestRate.Some? then u.interestRate.value else d.interestRate;
    var end := if u.expectedEnd.Some? then u.expectedEnd.value else d.expectedEnd;
    !BadDates(rate, d.startDate, end) && !(env.fault == 2 && WritesSchedule(total, rate, d.startDate, end))
  }

  lemma RefreshExactly(schedules: map<string, Schedule>, id: string, d: Debt, env: Env)
    ensures ScheduleRefreshed(schedules, id, WantsSchedule(d), PlanOf(d), env).Ok? <==>
      (env.repository ==>
         && !BadDates(d.interestRate, d.startDate, d.expectedEnd)
         && !(env.fault == 2 && WritesSchedule(d.total, d.interestRate, d.startDate, d.expectedEnd)))
  {
    DebtSchedules.PlanExactly(d.total, d.interestRate, d.startDate, d.expectedEnd);
  }

  // ---------------------------------------------------------------- deleting

  /** A delete is never refused for want of a row. It marks the user's live row and no other, and from then on nobody
      finds it. */
  lemma DeleteEffect(l: Ledger, req: Request, env: Env)
    requires req.DeleteDebt?
    ensures Apply(l, req, env).result.Ok? <==> !(1 <= env.fault <= 3)
    ensures Apply(l, req, env).result.Ok? ==>
      var l' := Apply(l, req, env).data;
      && l'.debts.Keys == l.debts.Keys
      && (forall i :: i in l.debts ==>
            l'.debts[i] == if i == req.id && l.debts[i].user == req.user then l.debts[i].(deleted := true)
                           else l.debts[i])
      && FindDebt(l', req.id, req.user).None?
      && l'.payments == l.payments && l'.schedules == l.schedules
      && l'.outbox == l.outbox + [DebtDeleted(req.id, req.user)]
  {
  }

  /** A row never goes away, never changes hands, and once deleted stays as it is. */
  lemma RowStays(l: Ledger, req: Request, env: Env, i: string)
    requires i in l.debts
    ensures
      var l' := Apply(l, req, env).data;
      && i in l'.debts && l'.debts[i].user == l.debts[i].user
      && (l.debts[i].deleted ==> l'.debts[i] == l.debts[i])
  {
    if Apply(l, req, env).result.Ok? && req.UpdateDebt? { UpdateEffect(l, req, env); }
  }

  /** After a delete nobody ever finds the row again. */
  lemma {:induction false} DeletedStaysDeleted(l: Ledger, calls: seq<Call>, i: string, user: string)
    requires i in l.debts && l.debts[i].deleted
    ensures FindDebt(Run(l, calls), i, user).None?
    decreases |calls|
  {
    if calls != [] {
      RowStays(l, calls[0].req, calls[0].env, i);
      DeletedStaysDeleted(Apply(l, calls[0].req, calls[0].env).data, calls[1..], i, user);
    }
  }

  // ---------------------------------------------------------------- paying

  /** A registered payment takes its amount off what remains and changes nothing else of the debt, except that it is
      paid off when, and only when, the amount is all that remained. The stored payment is the request's. */
  lemma RegisterEffect(l: Ledger, req: Request, env: Env)
    requires req.RegisterPayment? && Apply(l, req, env).result.Ok?
    ensures FindDebt(l, req.debt, req.user).Some? && req.debt in Apply(l, req, env).data.debts
    ensures
      var out, payment := Apply(l, req, env), Payment(req.debt, req.user, req.amount, req.date, req.notes);
      var l', d, d' := out.data, l.debts[req.debt], out.data.debts[req.debt];
      && out.result.value == PaymentResponse(env.newId, payment)
      && d'.remaining == d.remaining - req.amount
      && (d'.status != d.status <==> req.amount == d.remaining)
      && (req.amount == d.remaining ==> d'.status == PaidOff)
      && d' == d.(remaining := d'.remaining, status := d'.status)
      && OnlyRow(l.debts, l'.debts, req.debt) && l'.schedules == l.schedules
      && env.newId !in l.payments && l'.payments == l.payments[env.newId := payment]
      && l'.outbox == l.outbox + [PaymentRegistered(req.debt, req.user, env.newId, req.amount, d'.remaining, d'.status)]
  {
  }

  lemma RegisterAcceptedExactly(l: Ledger, req: Request, env: Env)
    requires req.RegisterPayment?
    ensures Apply(l, req, env).result.Ok? <==>
      && req.debt != "" && req.user != "" && req.date != ""
      && FindDebt(l, req.debt, req.user).Some?
      && l.debts[req.debt].status != PaidOff && 0 < req.amount <= l.debts[req.debt].remaining
      && env.newId !in l.payments && !(1 <= env.fault <= 4)
  {
  }

  // ---------------------------------------------------------------- errors

  /** An error changes nothing. */
  lemma ErrorChangesNothing(l: Ledger, req: Request, env: Env)
    requires Apply(l, req, env).result.Err?
    ensures Apply(l, req, env).data == l
  {
  }

  /** No error without its cause: creating a debt. */
  lemma CreateErrors(l: Ledger, req: Request, env: Env)
    requires req.CreateDebt? && Apply(l, req, env).result.Err?
    ensures
      match Apply(l, req, env).result.error
      case InvalidDebtType => !ValidDebtType(req.debtType)
      case MissingField => req.user == "" || req.name == "" || req.startDate == ""
      case NegativeAmount => req.total <= 0
      case InvalidDate => env.repository && BadDates(req.interestRate, req.startDate, req.expectedEnd)
      case StoreFailure => env.newId in l.debts || 1 <= env.fault <= 4
      case _ => false
  {
    DebtSchedules.PlanExactly(req.total, req.interestRate, req.startDate, req.expectedEnd);
  }

  /** Updating one. */
  lemma UpdateErrors(l: Ledger, req: Request, env: Env)
    requires req.UpdateDebt? && Apply(l, req, env).result.Err?
    ensures
      match Apply(l, req, env).result.error
      case NotFound => FindDebt(l, req.id, req.user).None?
      case InvalidDebtType => req.change.debtType.Some? && !ValidDebtType(req.change.debtType.value)
      case MissingField => req.change.name == Some("")
      case NegativeAmount => req.change.total.Some? && req.change.total.value <= 0
      case StatusTransition =>
        && req.id in l.debts && req.change.status.Some?
        && !TransitionAllowed(l.debts[req.id].status, req.change.status.value)
      case InvalidDate => env.repository && req.id in l.debts && !SchedulePossible(l.debts[req.id], req.change, env)
      case StoreFailure => 1 <= env.fault <= 4
      case _ => false
  {
    if FindDebt(l, req.id, req.user).Some? && ChangeError(l.debts[req.id], req.change.(user := req.user)) == None {
      var d' := Updated(l.debts[req.id], req.change.(user := req.user));
      RefreshErrors(l.schedules, req.id, d', env);
    }
  }

  lemma RefreshErrors(schedules: map<string, Schedule>, id: string, d: Debt, env: Env)
    ensures
      var saved := ScheduleRefreshed(schedules, id, WantsSchedule(d), PlanOf(d), env);
      saved.Err? ==>
        && env.repository
        && (|| (saved.error == InvalidDate && BadDates(d.interestRate, d.startDate, d.expectedEnd))
            || (saved.error == StoreFailure && env.fault == 2))
  {
    DebtSchedules.PlanExactly(d.total, d.interestRate, d.startDate, d.expectedEnd);
  }

  /** Registering a payment. */
  lemma RegisterErrors(l: Ledger, req: Request, env: Env)
    requires req.RegisterPayment? && Apply(l, req, env).result.Err?
    ensures
      match Apply(l, req, env).result.error
      case MissingField => req.debt == "" || req.user == "" || req.date == ""
      case NegativeAmount => req.amount <= 0
      case NotFound => FindDebt(l, req.debt, req.user).None?
      case DebtAlreadyPaid => req.debt in l.debts && l.debts[req.debt].status == PaidOff
      case PaymentExceedsBalance => req.debt in l.debts && req.amount > l.debts[req.debt].remaining
      case StoreFailure => env.newId in l.payments || 1 <= env.fault <= 4
      case _ => false
  {
  }

  // ---------------------------------------------------------------- paid off with something remaining

  /** The debt was created as paid off, or some update moved it there. */
  predicate PutAsPaidOff(events: seq<Event>, id: string) {
    exists k ::
      0 <= k < |events| && (events[k].DebtCreated? || events[k].DebtUpdated?) && events[k].id == id
      && events[k].status == PaidOff
  }

  lemma PutGrows(events: seq<Event>, e: Event, id: string)
    ensures PutAsPaidOff(events, id) ==> PutAsPaidOff(events + [e], id)
    ensures (e.DebtCreated? || e.DebtUpdated?) && e.id == id && e.status == PaidOff ==> PutAsPaidOff(events + [e], id)
  {
    assert forall k :: 0 <= k < |events| ==> (events + [e])[k] == events[k];
    assert (events + [e])[|events|] == e;
  }

  predicate PaidOffExplained(l: Ledger) {
    forall d :: d in l.debts && l.debts[d].status == PaidOff && l.debts[d].remaining > 0 ==> PutAsPaidOff(l.outbox, d)
  }

  lemma ApplyExplains(l: Ledger, req: Request, env: Env)
    requires PaidOffExplained(l)
    ensures PaidOffExplained(Apply(l, req, env).data)
  {
    if Apply(l, req, env).result.Err? {
      ErrorChangesNothing(l, req, env);
    } else {
      match req {
        case CreateDebt(_, _, _, _, _, _, _, _, _, _) => CreateEffect(l, req, env);
        case UpdateDebt(_, _, _) => UpdateEffect(l, req, env);
        case DeleteDebt(_, _) => DeleteEffect(l, req, env);
        case RegisterPayment(_, _, _, _, _) =>
          RegisterEffect(l, req, env);
          RegisterAcceptedExactly(l, req, env);
      }
      var l' := Apply(l, req, env).data;
      forall d | d in l'.debts && l'.debts[d].status == PaidOff && l'.debts[d].remaining > 0
        ensures PutAsPaidOff(l'.outbox, d)
      {
        PutGrows(l.outbox, l'.outbox[|l.outbox|], d);
      }
    }
  }

  /** In every history a debt that is paid off with something remaining was created so, or an update moved it there;
      payments alone never do that. */
  lemma {:induction false} PaidOffOnlyByUpdate(l: Ledger, calls: seq<Call>)
    requires PaidOffExplained(l)
    ensures PaidOffExplained(Run(l, calls))
    decreases |calls|
  {
    if calls != [] {
      ApplyExplains(l, calls[0].req, calls[0].env);
      PaidOffOnlyByUpdate(Apply(l, calls[0].req, calls[0].env).data, calls[1..]);
    }
  }
}
