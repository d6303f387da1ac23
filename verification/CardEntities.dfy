/** Credit cards, invoices and card transactions (creditcard-svc domain): the rows the service stores, the
    validation that creates them, and the mutable entities whose methods change them in place. */
module CardEntities {
  import opened Common
  import opened ReferenceMonth

  datatype Error =
    | NotFound | NegativeAmount | InvalidDay | InvalidCardBrand | InvalidCardType | MissingField | InvalidMonth
    | StatusTransition | AccessDenied | CreditExceeded | Validation | InvoiceNotOpen | InvoiceAlreadyPaid
    | PaymentExceedsAmount | StoreFailure

  datatype Status = Open | Closed | Paid | Overdue

  /** A row of credit_cards; `deleted` stands for a non-null deleted_at. */
  datatype Card = Card(
    user: string, name: string, brand: string, cardType: string, lastFour: string,
    closingDay: int, dueDay: int, limit: int, available: int, active: bool, deleted: bool)

  /** A date as text: as the caller gave it, or a month followed by a two-digit day. */
  datatype DateText = Given(text: string) | OnDay(month: string, day: int)

  datatype Invoice = Invoice(
    card: string, user: string, month: string, total: int, paid: int, status: Status,
    closing: DateText, due: DateText)

  datatype Txn = Txn(
    invoice: string, user: string, description: string, amount: int, category: string, date: string,
    installments: int)

  // ---------------------------------------------------------------- cards

  predicate ValidBrand(b: string) {
    b in ["visa", "mastercard", "amex", "elo", "hipercard", "diners", "other"]
  }

  predicate ValidCardType(t: string) {
    t in ["credit", "debit", "multiple"]
  }

  predicate ValidDay(d: int) {
    1 <= d <= 31
  }

  /** The enum converters followed by NewCreditCard. */
  function NewCreditCard(user: string, name: string, brand: string, cardType: string, lastFour: string,
                         closingDay: int, dueDay: int, limit: int): (r: Result<Card, Error>)
    ensures r.Ok? ==> r.value.available == r.value.limit == limit >= 0 && r.value.user == user && !r.value.deleted
  {
    if !ValidBrand(brand) then Err(InvalidCardBrand)
    else if !ValidCardType(cardType) then Err(InvalidCardType)
    else if user == "" || name == "" || lastFour == "" then Err(MissingField)
    else if !ValidDay(closingDay) || !ValidDay(dueDay) then Err(InvalidDay)
    else if limit < 0 then Err(NegativeAmount)
    else Ok(Card(user, name, brand, cardType, lastFour, closingDay, dueDay, limit, limit, true, false))
  }

  datatype CardUpdate = CardUpdate(
    user: string, name: Option<string>, closingDay: Option<int>, dueDay: Option<int>, limit: Option<int>,
    active: Option<bool>)

  /** The first half of an update: name and days. */
  function ProfileError(u: CardUpdate): Option<Error> {
    if u.name == Some("") then Some(MissingField)
    else if u.closingDay.Some? && !ValidDay(u.closingDay.value) then Some(InvalidDay)
    else if u.dueDay.Some? && !ValidDay(u.dueDay.value) then Some(InvalidDay)
    else None
  }

  function Profile(c: Card, u: CardUpdate): Card {
    c.(name := Or(u.name, c.name), closingDay := Or(u.closingDay, c.closingDay), dueDay := Or(u.dueDay, c.dueDay))
  }

  /** The error ApplyUpdate stops at, if any. */
  function UpdateError(c: Card, u: CardUpdate): Option<Error> {
    if u.user != "" && u.user != c.user then Some(AccessDenied)
    else if ProfileError(u).Some? then ProfileError(u)
    else if u.limit.Some? && u.limit.value < 0 then Some(NegativeAmount)
    else None
  }

  /** The card after an update without error: a limit change moves the available credit by the same amount. */
  function Updated(c: Card, u: CardUpdate): (c': Card)
    ensures c'.limit - c'.available == c.limit - c.available
  {
    Profile(c, u).(limit := Or(u.limit, c.limit), available := c.available + (Or(u.limit, c.limit) - c.limit),
                   active := Or(u.active, c.active))
  }

  /** A card loaded from its repository. */
  class CardEntity {
    var row: Card

    constructor (c: Card)
      ensures row == c
    {
      row := c;
    }

    /** Name and days, the first half of ApplyUpdate. */
    method ApplyProfile(u: CardUpdate) returns (err: Option<Error>)
      modifies this
      ensures err == ProfileError(u)
      ensures err == None ==> row == Profile(old(row), u)
      ensures row.limit == old(row).limit && row.available == old(row).available && row.active == old(row).active
    {
      if u.name.Some? {
        if u.name.value == "" { return Some(MissingField); }
        row := row.(name := u.name.value);
      }
      if u.closingDay.Some? {
        if u.closingDay.value < 1 || u.closingDay.value > 31 { return Some(InvalidDay); }
        row := row.(closingDay := u.closingDay.value);
      }
      if u.dueDay.Some? {
        if u.dueDay.value < 1 || u.dueDay.value > 31 { return Some(InvalidDay); }
        row := row.(dueDay := u.dueDay.value);
      }
      return None;
    }

    /** ApplyUpdate assigns field by field and stops at the first invalid one, so an error can leave earlier
        fields already changed in this object (the service then drops it); the money fields only move at the
        limit step, so an error never touches them. */
    method ApplyUpdate(u: CardUpdate) returns (err: Option<Error>)
      modifies this
      ensures err == UpdateError(old(row), u)
      ensures err == None ==> row == Updated(old(row), u)
      ensures err.Some? ==> row.limit == old(row).limit && row.available == old(row).available
                            && row.active == old(row).active
    {
      if u.user != "" && u.user != row.user { return Some(AccessDenied); }
      err := ApplyProfile(u);
      if err.Some? { return; }
      if u.limit.Some? {
        if u.limit.value < 0 { return Some(NegativeAmount); }
        var diff := u.limit.value - row.limit;
        row := row.(limit := u.limit.value);
        row := row.(available := row.available + diff);
      }
      if u.active.Some? {
        row := row.(active := u.active.value);
      }
      return None;
    }
  }

  // ---------------------------------------------------------------- invoices

  function NewInvoice(card: string, user: string, month: string, closing: DateText, due: DateText)
    : (r: Result<Invoice, Error>)
    ensures r.Ok? ==> IsValidMonth(month) && r.value.total == r.value.paid == 0 && r.value.status == Open
                      && r.value.card == card && r.value.user == user && r.value.month == month
  {
    if card == "" || user == "" || month == "" then Err(MissingField)
    else if !IsValidMonth(month) then Err(InvalidMonth)
    else if closing == Given("") || due == Given("") then Err(MissingField)
    else Ok(Invoice(card, user, month, 0, 0, Open, closing, due))
  }

  function ChargeError(inv: Invoice, amount: int): Option<Error> {
    if inv.status != Open then Some(InvoiceNotOpen) else if amount <= 0 then Some(NegativeAmount) else None
  }

  function Charged(inv: Invoice, amount: int): Invoice {
    inv.(total := inv.total + amount)
  }

  function PayError(inv: Invoice, amount: int): Option<Error> {
    if inv.status == Paid then Some(InvoiceAlreadyPaid)
    else if amount <= 0 then Some(NegativeAmount)
    else if amount > inv.total - inv.paid then Some(PaymentExceedsAmount)
    else None
  }

  function PaidDown(inv: Invoice, amount: int): Invoice {
    inv.(paid := inv.paid + amount, status := if inv.paid + amount >= inv.total then Paid else inv.status)
  }

  predicate TransitionAllowed(from: Status, to: Status) {
    match from
    case Open => to == Closed || to == Overdue
    case Closed => to == Overdue || to == Paid
    case Paid => false
    case Overdue => to == Closed || to == Paid
  }

  /** An invoice loaded from its repository. Each method either reports an error and changes nothing, or
      changes exactly the fields named. */
  class InvoiceEntity {
    var row: Invoice

    constructor (inv: Invoice)
      ensures row == inv
    {
      row := inv;
    }

    method AddTransactionAmount(amount: int) returns (err: Option<Error>)
      modifies this
      ensures err == ChargeError(old(row), amount)
      ensures row == if err == None then Charged(old(row), amount) else old(row)
    {
      if row.status != Open { return Some(InvoiceNotOpen); }
      if amount <= 0 { return Some(NegativeAmount); }
      row := row.(total := row.total + amount);
      return None;
    }

    method Pay(amount: int) returns (err: Option<Error>)
      modifies this
      ensures err == PayError(old(row), amount)
      ensures row == if err == None then PaidDown(old(row), amount) else old(row)
    {
      if row.status == Paid { return Some(InvoiceAlreadyPaid); }
      if amount <= 0 { return Some(NegativeAmount); }
      if amount > row.total - row.paid { return Some(PaymentExceedsAmount); }
      row := row.(paid := row.paid + amount);
      if row.paid >= row.total {
        row := row.(status := Paid);
      }
      return None;
    }

    method TransitionStatus(newStatus: Status) returns (err: Option<Error>)
      modifies this
      ensures err == if TransitionAllowed(old(row).status, newStatus) then None else Some(StatusTransition)
      ensures row == if err == None then old(row).(status := newStatus) else old(row)
    {
      var allowed := map[
        Open := [Closed, Overdue], Closed := [Overdue, Paid], Paid := [], Overdue := [Closed, Paid]];
      assert row.status.Open? || row.status.Closed? || row.status.Paid? || row.status.Overdue?;
      var transitions := allowed[row.status];
      assert TransitionAllowed(row.status, newStatus) <==> newStatus in transitions;
      for k := 0 to |transitions|
        invariant row == old(row)
        invariant newStatus !in transitions[..k]
      {
        if transitions[k] == newStatus {
          row := row.(status := newStatus);
          return None;
        }
      }
      assert transitions[..|transitions|] == transitions;
      return Some(StatusTransition);
    }
  }

  // ---------------------------------------------------------------- transactions

  /** NewInvoiceTransaction, with its defaults for category and installments. */
  function NewInvoiceTransaction(invoice: string, user: string, description: string, amount: int,
                                 category: string, date: string, installments: int): (r: Result<Txn, Error>)
    ensures r.Ok? ==> amount > 0 && r.value.amount == amount && r.value.invoice == invoice && r.value.user == user
                      && r.value.category != "" && r.value.installments >= 1
  {
    if invoice == "" || user == "" || description == "" then Err(MissingField)
    else if amount <= 0 then Err(NegativeAmount)
    else if date == "" then Err(MissingField)
    else Ok(Txn(invoice, user, description, amount, if category == "" then "other" else category, date,
                if installments < 1 then 1 else installments))
  }
}
