/** Debts and payments (debt-svc domain): the rows, their validation, and the entity whose methods change a debt in
    place. */
module DebtEntities {
  import opened Common

  datatype Error =
    | MissingField | InvalidDebtType | NegativeAmount | StatusTransition | AccessDenied | DebtAlreadyPaid
    | PaymentExceedsBalance | InvalidDate | NotFound | StoreFailure

  datatype Status = Active | Paused | PaidOff | Defaulted | Settled

  datatype Debt = Debt(
    user: string, name: string, description: string, debtType: string, total: int, remaining: int, interestRate: int,
    startDate: string, expectedEnd: string, status: Status, creditor: string, deleted: bool)

  datatype Payment = Payment(debt: string, user: string, amount: int, date: string, notes: string)

  predicate ValidDebtType(t: string) {
    t in ["personal_loan", "student_loan", "mortgage", "car_loan", "credit_card_debt", "medical_debt", "other"]
  }

  predicate TransitionAllowed(from: Status, to: Status) {
    match from
    case Active => to in [Paused, PaidOff, Defaulted, Settled]
    case Paused => to in [Active, PaidOff, Defaulted, Settled]
    case PaidOff => false
    case Defaulted => to == Settled
    case Settled => false
  }

  datatype DebtUpdate = DebtUpdate(
    user: string, name: Option<string>, description: Option<string>, debtType: Option<string>, total: Option<int>,
    interestRate: Option<int>, expectedEnd: Option<string>, status: Option<Status>, creditor: Option<string>)

  /** The first half of an update: name, description, type and total. */
  function DetailsError(u: DebtUpdate): Option<Error> {
    if u.name == Some("") then Some(MissingField)
    else if u.debtType.Some? && !ValidDebtType(u.debtType.value) then Some(InvalidDebtType)
    else if u.total.Some? && u.total.value <= 0 then Some(NegativeAmount)
    else None
  }

  function Details(d: Debt, u: DebtUpdate): Debt {
    d.(name := Or(u.name, d.name), description := Or(u.description, d.description),
       debtType := Or(u.debtType, d.debtType), total := Or(u.total, d.total))
  }

  function UpdateError(d: Debt, u: DebtUpdate): Option<Error> {
    if u.user != "" && u.user != d.user then Some(AccessDenied)
    else if DetailsError(u).Some? then DetailsError(u)
    else if u.status.Some? && !TransitionAllowed(d.status, u.status.value) then Some(StatusTransition)
    else None
  }

  /** An update may edit the total, but never what remains. */
  function Updated(d: Debt, u: DebtUpdate): (d': Debt)
    ensures d'.remaining == d.remaining && d'.user == d.user
  {
    Details(d, u).(interestRate := Or(u.interestRate, d.interestRate), expectedEnd := Or(u.expectedEnd, d.expectedEnd),
                   status := Or(u.status, d.status), creditor := Or(u.creditor, d.creditor))
  }

  function PaymentError(d: Debt, amount: int): Option<Error> {
    if amount <= 0 then Some(NegativeAmount)
    else if d.status == PaidOff then Some(DebtAlreadyPaid)
    else if amount > d.remaining then Some(PaymentExceedsBalance)
    else None
  }

  function PaidDown(d: Debt, amount: int): Debt {
    d.(remaining := d.remaining - amount, status := if d.remaining == amount then PaidOff else d.status)
  }

  class DebtEntity {
    var row: Debt

    constructor (d: Debt)
      ensures row == d
    {
      row := d;
    }

    method TransitionStatus(newStatus: Status) returns (err: Option<Error>)
      modifies this
      ensures err == if TransitionAllowed(old(row).status, newStatus) then None else Some(StatusTransition)
      ensures row == if err == None then old(row).(status := newStatus) else old(row)
    {
      var transitions :=
        match row.status
        case Active => [Paused, PaidOff, Defaulted, Settled]
        case Paused => [Active, PaidOff, Defaulted, Settled]
        case PaidOff => []
        case Defaulted => [Settled]
        case Settled => [];
      assert TransitionAllowed(row.status, newStatus) <==> newStatus in transitions;
      for k := 0 to |transitions|
        invariant row == old(row) && newStatus !in transitions[..k]
      {
        if transitions[k] == newStatus {
          row := row.(status := newStatus);
          return None;
        }
      }
      assert transitions[..|transitions|] == transitions;
      return Some(StatusTransition);
    }

    method ApplyDetails(u: DebtUpdate) returns (err: Option<Error>)
      modifies this
      ensures err == DetailsError(u)
      ensures err == None ==> row == Details(old(row), u)
      ensures row.remaining == old(row).remaining && row.status == old(row).status
    {
      if u.name.Some? {
        if u.name.value == "" { return Some(MissingField); }
        row := row.(name := u.name.value);
      }
      if u.description.Some? { row := row.(description := u.description.value); }
      if u.debtType.Some? {
        if !ValidDebtType(u.debtType.value) { return Some(InvalidDebtType); }
        row := row.(debtType := u.debtType.value);
      }
      if u.total.Some? {
        if u.total.value <= 0 { return Some(NegativeAmount); }
        row := row.(total := u.total.value);
      }
      return None;
    }

    /** An error may come after earlier fields of this object were assigned; the service then drops the object.
        What remains is never touched. */
    method ApplyUpdate(u: DebtUpdate) returns (err: Option<Error>)
      modifies this
      ensures err == UpdateError(old(row), u)
      ensures err == None ==> row == Updated(old(row), u)
      ensures row.remaining == old(row).remaining && (err.Some? ==> row.status == old(row).status)
    {
      if u.user != "" && u.user != row.user { return Some(AccessDenied); }
      err := ApplyDetails(u);
      if err.Some? { return; }
      if u.interestRate.Some? { row := row.(interestRate := u.interestRate.value); }
      if u.expectedEnd.Some? { row := row.(expectedEnd := u.expectedEnd.value); }
      if u.status.Some? {
        err := TransitionStatus(u.status.value);
        if err.Some? { return; }
      }
      if u.creditor.Some? { row := row.(creditor := u.creditor.value); }
      return None;
    }

    method ApplyPayment(amount: int) returns (err: Option<Error>)
      modifies this
      ensures err == PaymentError(old(row), amount)
      ensures row == if err == None then PaidDown(old(row), amount) else old(row)
    {
      if amount <= 0 { return Some(NegativeAmount); }
      if row.status == PaidOff { return Some(DebtAlreadyPaid); }
      if amount > row.remaining { return Some(PaymentExceedsBalance); }
      row := row.(remaining := row.remaining - amount);
      if row.remaining == 0 {
        row := row.(status := PaidOff);
      }
      return None;
    }
  }

  function NewDebt(user: string, name: string, description: string, debtType: string, total: int, interestRate: int,
                   startDate: string, expectedEnd: string, status: Status, creditor: string): (r: Result<Debt, Error>)
    ensures r.Ok? ==> r.value.remaining == r.value.total == total > 0 && r.value.user == user && !r.value.deleted
  {
    if !ValidDebtType(debtType) then Err(InvalidDebtType)
    else if user == "" || name == "" then Err(MissingField)
    else if total <= 0 then Err(NegativeAmount)
    else if startDate == "" then Err(MissingField)
    else Ok(Debt(user, name, description, debtType, total, total, interestRate, startDate, expectedEnd, status,
                 creditor, false))
  }

  function NewPayment(debt: string, user: string, amount: int, date: string, notes: string): (r: Result<Payment, Error>)
    ensures r.Ok? ==> r.value == Payment(debt, user, amount, date, notes) && amount > 0
  {
    if debt == "" || user == "" then Err(MissingField)
    else if amount <= 0 then Err(NegativeAmount)
    else if date == "" then Err(MissingField)
    else Ok(Payment(debt, user, amount, date, notes))
  }
}
