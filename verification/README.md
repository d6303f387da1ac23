# Verified model of Aureum's money-keeping services

Aureum is a set of Go services for personal finance. This project models the parts that keep money right and
proves what they keep:

- **Credit-card ledger** (`ReferenceMonth`, `CardEntities`, `CardLedger`, `CardConservation`, `CardInvoiceRules`,
  `CardEffects`, `CardExamples`, `CardReplay`, `CardFrontend`, `CardRetry`, `CardCache`, `CardService`): cards, invoices,
  charges with rollover to the next month, payments, the outbox and the two read caches.
- **Idempotency keys** (`Idempotency`): stated once for any service and used by the card, debt and investment services.
- **Loan amortization** (`Rounding`, `Amortization`, `AmortizationDrift`, `DebtSchedules`): the fixed payment and the
  month-by-month schedule rounded to cents.
- **Outbox publisher and lease lock** (`OutboxProtocol`, `OutboxPublisher`, `OutboxDelivery`, `LeaseLock`): step protocols
  with failures, several publishers, expiring leases and stale unlocks; `CardDelivery` joins them to the card ledger.
- **Investments** (`Investment`, `InvestmentService`, `InvestmentEffects`, `InvestmentRules`, `InvestmentCache`,
  `Portfolio`): integer cost basis, proportional sells, the service with its two read caches, the summary and what a stale
  one is off by.
- **Debts and the monthly read model** (`DebtEntities`, `DebtLedger`, `DebtEffects`, `DebtService`, `MonthlyReadModel`).
- **User isolation** (`UserIsolation`): whose rows a read or a repeated key can be answered with.

The `...Effects` modules say for every request what it stores, answers and records, field by field and without the
model's own update functions, exactly when it is accepted, and what each error means.

`Common.dfy` holds an option type, a result type and finite sums over maps.

## How the model is built

Objects the source changes in place are classes (`InvoiceEntity`, `CardEntity`, `InvestmentEntity`, `DebtEntity`, the
`Service` classes, `Publisher`, `Store`, `Projector`); each method is proved to compute a step function on values, and the
laws are lemmas about runs of those steps. A service behind its keys is `Idempotency.Handle` around a plain step function
`Serve` on its tables and caches, so laws of plain runs carry over to histories with retries
(`Idempotency.HistoryIsPlain`). A database transaction is a sequence of single writes; `Env.fault` lets any one of them, or
the commit, be refused, and the method then rolls every table back. Generated ids are inputs, and inserting
an id that exists fails as the primary key makes it fail. Calls of one service are serial: the source reads invoices and
cards outside its transactions, so interleaved calls are not covered. `Env.constraints` says whether the migrations' CHECK
and foreign-key constraints are enforced; every law holds either way unless it says otherwise. Status moves made outside
the card service (nothing in it closes an invoice) are steps of their own. Amounts are unbounded integers, and float64 is
`real`, with `Round` for `math.Round`.

## Where code, schema and documentation differ

- A charge that has to open its own rollover invoice inserts the transaction row before the invoice row it refers to, so
  with the foreign key enforced it never commits (`NewRolloverRefusedBySchema`; `ChargeAcceptedExactly` gives the exact
  condition of every charge, `FirstRolloverRefused` a run;
  apps/creditcard-svc/internal/application/service.go:525-531, apps/creditcard-svc/migrations/001_create_credit_cards_table.sql:47).
- `isValidMonth` accepts years with non-digits; such a month is its own successor and a rollover from it stays in the same
  month (`RolloverMonth` gives the exact condition, `StuckRollover` an example;
  apps/creditcard-svc/internal/domain/invoice.go:154-158).
- `TransitionStatus` lets a closed or overdue invoice become paid without a payment; that and nothing else breaks "paid
  exactly when fully paid" (`ForcedPaidBreaksRule`, `PaidExactlyWhenFullyPaid`, with a run in `ForcedPaidExample`).
- The specification wants available credit never negative (specs/004-creditcard-service/plan.md:43); the domain code lets a limit cut break this and only the
  table's CHECK stops it (`LimitCutExactly` and `OverLimitExactly` give the exact condition, `LimitCutExample` a run,
  `NeverOverLimit` the effect of the CHECK).
- The service contract lists an idempotency key for deleting a card (specs/004-creditcard-service/contracts.md:382); the code takes none, and it emits the event even when
  no row was the caller's (`DeleteNotDeduplicated`). A consumer must therefore compare the user, as `CardReplay.Consume` does.
- Selling a whole holding marks it sold, but the table's CHECK (quantity > 0) refuses the row (`SellCommitsExactly` and
  `SoldOutExactly` give the exact conditions, `FullSellExample` a run, `FullSellRefusedBySchema` the effect on histories).
- A sell can turn the strict upper bound on the cost basis into equality (`SellStrictExactly`, `StrictBoundLost`).
- Updating a debt so that its monthly payment rounds to nothing leaves the old amortization schedule stored
  (`ScheduleFreshExactly` gives the exact condition, `StaleSchedule` a run; apps/debt-svc/internal/application/service.go:70-73).
- Updating an investment sets quantity and price beside an unchanged cost basis (`ApplyKeepsExactly` and
  `PositionsHoldExactly` say exactly which updates break the bounds and the transaction count, `EditExample` is a run;
  apps/investment-svc/internal/domain/investment.go:222-233).
- Recording a transaction deletes the cached portfolio but not the cached investment, and creating, updating or deleting
  an investment does not delete the cached portfolio (`InvestmentCache.CachesStayOk` says by how much each can lag,
  `StaleSummary` what the served figures are off by, `StalePortfolioExample` is a run).
- The card plan asks for no leakage across users (specs/004-creditcard-service/plan.md:43). Cards, invoices, investments and
  portfolios keep to it. A debt is cached under its id alone and an idempotency key carries no user, so there it fails in
  exactly the cases of `DebtReadExactly`, `CardKeyExactly`, `DebtKeyExactly` and `InvestmentKeyExactly`.
- The portfolio service uses the invested amount as current value, so it always reports a zero return
  (`GetPortfolioSummary`).
- The shipped monthly-summary repository wraps the driver's no-rows error instead of returning the interface's ErrNoData,
  and the projector then never creates a row (`Projector.Consume`;
  apps/report-svc/internal/infrastructure/persistence/monthly_summary_repo.go:51-53).

## Model

| member | source | states |
|---|---|---|
| `Rounding.Round` | apps/debt-svc/internal/domain/amortization.go:46-47 | rounding is to the nearest cent, with the tie side fixed: halves go away from zero |
| `Rounding.RoundSplit` | apps/debt-svc/internal/domain/amortization.go:43-47 | rounding principal and interest separately keeps their sum, or adds one cent exactly when the interest ends in half a cent |
| `Rounding.PowApartFromOne` | apps/debt-svc/internal/domain/amortization.go:100-101 | the power in the payment formula is never one for a non-zero rate above minus one, so the division is defined |
| `Amortization.PayMonth` | apps/debt-svc/internal/domain/amortization.go:42-73 | one month on the real-valued balance gives the integer row of the schedule, and the balance stays a whole number of cents |
| `Amortization.CalculateAmortization` | apps/debt-svc/internal/domain/amortization.go:31-88 | the loop writes a schedule in the sense of an integer-only definition (`IsSchedule`): every month's interest is the opening balance times the annual figure over 120000 to the nearest cent, closing month included, its principal what the payment leaves or the whole balance, and the whole balance is interest when that is less than half a cent; total interest is their sum and total paid is loan plus interest |
| `Amortization.RowIsMonth` | apps/debt-svc/internal/domain/amortization.go:42-73 | each row of the schedule function is such a month, for every rate |
| `Amortization.RowsAreSchedule` | apps/debt-svc/internal/domain/amortization.go:35-88 | the rows are such a schedule, stopping only when nothing is left or the months are over |
| `Amortization.PaymentIsAnnuity` | apps/debt-svc/internal/domain/amortization.go:92-103 | the payment is zero without months, the truncated share without a rate, and else within half a cent of the annuity at the annual figure over 120000 a month |
| `Amortization.OneMonthPayment` | apps/debt-svc/internal/domain/amortization.go:99-102 | over one month it is loan plus interest to the nearest cent, in integers |
| `Amortization.RowConserves` | apps/debt-svc/internal/domain/amortization.go:49-64 | a row's payment is principal plus interest, its balance strictly falls, it has principal exactly from half a cent on, and then principal plus balance is the old balance |
| `Amortization.PrincipalsConserveLoan` | apps/debt-svc/internal/domain/amortization.go:41-77 | without the too-small branch principals plus last balance are the loan, and total paid is the row payments plus the last balance |
| `Amortization.TooSmallDecidedByFirstMonth` | apps/debt-svc/internal/domain/amortization.go:49-53 | for a non-negative rate the too-small branch is taken in some month if and only if the first payment covers its interest by less than half a cent |
| `Amortization.ScheduleMonotone` | apps/debt-svc/internal/domain/amortization.go:41-74 | for a non-negative rate and a covering first payment, for any two rows the balance strictly falls, interest never rises, and principal never falls before the closing row |
| `Amortization.RowPaysMonthlyPayment` | apps/debt-svc/internal/domain/amortization.go:59-64 | for a non-negative rate every row but a closing one pays the monthly payment, one cent more exactly when the interest ends in half a cent |
| `AmortizationDrift.ExactPaymentClearsLoan` | apps/debt-svc/internal/domain/amortization.go:99-102 | the unrounded payment brings the unrounded loan to exactly zero after its n months |
| `AmortizationDrift.DriftStep` | apps/debt-svc/internal/domain/amortization.go:42-61 | a rounded month widens the gap to the exact schedule by interest on the gap and at most one cent |
| `AmortizationDrift.ScheduleTracksExact` | apps/debt-svc/internal/domain/amortization.go:31-74 | after any month that leaves something owed the rounded balance is within that many compounded cents of the exact one, on both sides |
| `AmortizationDrift.FinalBalanceBounded` | apps/debt-svc/internal/domain/amortization.go:31-103 | for every loan, positive rate and term, the rounded payment leaves between 0 and ((1+r)^n - 1)/r cents |
| `AmortizationDrift.ZeroRateLeavesRemainder` | apps/debt-svc/internal/domain/amortization.go:96-98 | at rate zero the truncated payment leaves exactly the remainder; fewer cents than months become a single all-interest row |
| `DebtSchedules.MonthsBetween` | apps/debt-svc/internal/domain/amortization.go:107-121 | fails exactly when a date text is not a calendar date in YYYY-MM-DD form; otherwise the larger of one and the difference of the calendar months |
| `DebtSchedules.MonthsBetweenCounts` | apps/debt-svc/internal/domain/amortization.go:116-119 | an end one month later counts one month more unless both are clamped, and only one direction can exceed one month |
| `DebtSchedules.DateRoundTrip` | apps/debt-svc/internal/infrastructure/persistence/debt_repo.go:73-74 | every date the repository formats parses back to itself, so a stored debt never fails on its dates |
| `DebtSchedules.OnlyDatesParse` | apps/debt-svc/internal/domain/amortization.go:108-115 | conversely a text that parses is that date written in the layout |
| `DebtSchedules.CalendarYear` | apps/debt-svc/internal/domain/amortization.go:108-115 | the accepted days make up years of 365 or 366 days by the Gregorian rule |
| `DebtSchedules.SaveAmortization` | apps/debt-svc/internal/application/service.go:59-77 | saves exactly what the plan says, nothing without a repository, and fails exactly when a needed date does not parse |
| `DebtSchedules.PlanPaysOff` | apps/debt-svc/internal/application/service.go:63-76 | a planned schedule is one in the integer sense with the rounded annuity over the months between the dates: it leaves at most the drift bound unpaid, totals loan plus interest, and conserves the loan exactly unless its first payment is too small |
| `DebtSchedules.PlanExactly` | apps/debt-svc/internal/application/service.go:59-77 | exactly when a plan fails and exactly when it stores a schedule |
| `ReferenceMonth.RangesAreStringOrder` | apps/creditcard-svc/internal/domain/invoice.go:147-167 | the character comparisons used for month validation amount to the string comparisons of the source |
| `ReferenceMonth.FormatThenParse` | apps/creditcard-svc/internal/application/service.go:643-649 | a formatted month parses back to itself |
| `ReferenceMonth.ValidMonthParses` | apps/creditcard-svc/internal/domain/invoice.go:147-167 | an accepted month parses exactly when its year is all digits, and then lies in 2000 to 2100 |
| `ReferenceMonth.NextMonthIsOneLater` | apps/creditcard-svc/internal/application/service.go:643-649 | for every accepted month the successor is one calendar month later exactly when the year is all digits, and otherwise the month itself |
| `ReferenceMonth.StuckMonthExists` | apps/creditcard-svc/internal/domain/invoice.go:156-158 | a month with a letter in its year is accepted and is its own successor |
| `CardEntities.NewCreditCard` | apps/creditcard-svc/internal/domain/credit_card.go:94-141 | a new card has its whole non-negative limit available |
| `CardEntities.CardEntity.ApplyUpdate` | apps/creditcard-svc/internal/domain/credit_card.go:143-178 | the update's error and, without one, the whole new card; an error never moves money or the active flag |
| `CardEntities.Updated` | apps/creditcard-svc/internal/domain/credit_card.go:165-172 | a limit change leaves the used credit, limit minus available, as it was |
| `CardEntities.NewInvoice` | apps/creditcard-svc/internal/domain/invoice.go:54-87 | a new invoice is open, empty and carries an accepted month |
| `CardEntities.InvoiceEntity.AddTransactionAmount` | apps/creditcard-svc/internal/domain/invoice.go:91-101 | error and whole new row of a charge; an error changes nothing |
| `CardEntities.InvoiceEntity.Pay` | apps/creditcard-svc/internal/domain/invoice.go:104-120 | error and whole new row of a payment; an error changes nothing |
| `CardEntities.InvoiceEntity.TransitionStatus` | apps/creditcard-svc/internal/domain/invoice.go:123-145 | the search through the allowed list succeeds exactly for an allowed move and changes only the status |
| `CardEntities.NewInvoiceTransaction` | apps/creditcard-svc/internal/domain/invoice_transaction.go:30-63 | an accepted transaction has a positive amount and keeps invoice, user and amount |
| `CardEffects.CardListsOfSchema` | apps/creditcard-svc/migrations/001_create_credit_cards_table.sql:7-11 | validation accepts exactly the brands, card types and days the table's CHECKs list |
| `CardEffects.TransitionsAre` | apps/creditcard-svc/internal/domain/invoice.go:127-132 | the six status moves of an invoice |
| `CardEffects.TransitionEffect` | apps/creditcard-svc/internal/domain/invoice.go:123-145 | an outside move changes the status of its invoice if allowed, and nothing else |
| `CardEffects.CreateCardEffect` | apps/creditcard-svc/internal/application/service.go:90-126 | a created card is stored, answered and recorded as asked for, active, with its whole limit available |
| `CardEffects.CreateCardAcceptedExactly` | apps/creditcard-svc/internal/domain/credit_card.go:94-123 | exactly when a card is created |
| `CardEffects.UpdateCardEffect` | apps/creditcard-svc/internal/application/service.go:190-217 | each given field gets its value, each absent one keeps it, available credit moves by exactly the limit change, and no other row changes |
| `CardEffects.UpdateCardAcceptedExactly` | apps/creditcard-svc/internal/domain/credit_card.go:143-178 | exactly when an update is accepted |
| `CardEffects.DeleteCardEffect` | apps/creditcard-svc/internal/application/service.go:229-246 | a delete marks the user's card, which nobody finds from then on, and touches nothing else |
| `CardEffects.DeletedStaysDeleted` | apps/creditcard-svc/internal/application/service.go:229-246 | over every run a deleted card is never found again |
| `CardEffects.CreateInvoiceEffect` | apps/creditcard-svc/internal/application/service.go:287-320 | a created invoice is stored, answered and recorded as asked for, open and empty |
| `CardEffects.CreateInvoiceAcceptedExactly` | apps/creditcard-svc/internal/application/service.go:276-300 | exactly when an invoice is created: the card live, the user's and active, the month accepted, both dates given |
| `CardEffects.PaymentRecorded` | apps/creditcard-svc/internal/application/service.go:390-431 | answer and event of a payment carry the row it stored, and the card gets the amount back up to its limit in every state |
| `CardEffects.ChargeRecorded` | apps/creditcard-svc/internal/application/service.go:494-566 | the stored transaction, the answer and the event are the request's, with the defaults for category and installments |
| `CardEffects.ChargedRow` | apps/creditcard-svc/internal/application/service.go:471-531 | the whole row a charge leaves, a new rollover invoice with its closing and due dates included |
| `CardEffects.CardErrors` | apps/creditcard-svc/internal/domain/credit_card.go:94-178 | each error of a card request has its cause |
| `CardEffects.InvoiceErrors` | apps/creditcard-svc/internal/domain/invoice.go:54-120 | each error of a new invoice or a payment has its cause |
| `CardEffects.ChargeErrors` | apps/creditcard-svc/internal/application/service.go:509-523 | each error of a charge has its cause |
| `CardEffects.TargetErrors` | apps/creditcard-svc/internal/application/service.go:452-492 | each error of finding the invoice to charge has its cause |
| `CardLedger.FindByMonth` | apps/creditcard-svc/internal/infrastructure/persistence/invoice_repo.go:109-138 | a found invoice is of that card and month, and not-found means there is none |
| `CardService.Service.CreateCreditCard` | apps/creditcard-svc/internal/application/service.go:69-132 | the write-by-write transaction with rollback has the effect and answer of one atomic step |
| `CardService.Service.UpdateCreditCard` | apps/creditcard-svc/internal/application/service.go:157-227 | the same for an update, with the card's cache entry dropped on success |
| `CardService.Service.DeleteCreditCard` | apps/creditcard-svc/internal/application/service.go:229-246 | the same for a delete; the cache entry goes first and the event is written even if no row matched |
| `CardService.Service.CreateInvoice` | apps/creditcard-svc/internal/application/service.go:267-331 | the same for a new invoice |
| `CardService.Service.PayTx` | apps/creditcard-svc/internal/application/service.go:390-422 | the payment transaction in the source's order, the invoice written before the card is looked up, with each error it can end in |
| `CardService.Service.PayInvoice` | apps/creditcard-svc/internal/application/service.go:373-439 | the same for a payment |
| `CardService.Service.ChooseTarget` | apps/creditcard-svc/internal/application/service.go:452-492 | the rollover branch picks the target of the step function |
| `CardService.Service.ChargeTx` | apps/creditcard-svc/internal/application/service.go:509-557 | the charge transaction write by write, with each error it can end in |
| `CardService.Service.AddTransaction` | apps/creditcard-svc/internal/application/service.go:443-573 | the same for a charge |
| `CardService.Service.GetCreditCard` | apps/creditcard-svc/internal/application/service.go:134-155 | a read answers from the cache or from the row it then caches |
| `CardService.Service.GetInvoice` | apps/creditcard-svc/internal/application/service.go:333-354 | the same for invoices |
| `CardConservation.CapNeverFires` | apps/creditcard-svc/internal/application/service.go:400-403 | in every balanced state the cap on restored credit never changes a value |
| `CardConservation.PayKeeps` | apps/creditcard-svc/internal/application/service.go:390-422 | a payment keeps each card's used credit equal to what its invoices owe |
| `CardConservation.AddTransactionKeeps` | apps/creditcard-svc/internal/application/service.go:509-557 | so does a charge, rollover or not |
| `CardConservation.UpdateCardKeeps` | apps/creditcard-svc/internal/application/service.go:190-211 | so does a limit change |
| `CardConservation.NextKeeps` | apps/creditcard-svc/internal/application/service.go:69-573 | so does every request and every outside status move |
| `CardConservation.LedgerBalances` | apps/creditcard-svc/internal/application/service.go:390-406 | after any serial history limit minus available is what the card's invoices owe, available never exceeds the limit, totals are the recorded charges, and 0 <= paid <= total |
| `CardInvoiceRules.PaidExactlyWhenFullyPaid` | apps/creditcard-svc/internal/domain/invoice.go:104-120 | after any history an invoice is paid exactly when a positive total is fully paid, if and only if no outside move of the history marked a closed or overdue invoice as paid |
| `CardInvoiceRules.ForcedPaidBreaksRule` | apps/creditcard-svc/internal/domain/invoice.go:127-132 | one move keeps that rule exactly when it is not such a forced one |
| `CardExamples.ForcedPaidExample` | apps/creditcard-svc/internal/domain/invoice.go:127-132 | a run that marks an empty closed invoice as paid and breaks the rule |
| `CardInvoiceRules.TotalFrozenOnceNotOpen` | apps/creditcard-svc/internal/domain/invoice.go:91-101 | over every run an invoice keeps card, user and month, its amounts never fall, once not open it never reopens and its total is fixed, and once paid the row is final |
| `CardInvoiceRules.ChargeLands` | apps/creditcard-svc/internal/application/service.go:457-539 | a successful charge adds its amount to one open invoice of the same card, the requested one if open and else one of the next reference month, and takes it off that card; no other row changes |
| `CardInvoiceRules.RolloverMonth` | apps/creditcard-svc/internal/application/service.go:465-466 | that month is one calendar month later exactly when the asked year is all digits |
| `CardInvoiceRules.MonthsStayValid` | apps/creditcard-svc/internal/application/service.go:476-485 | every stored invoice keeps an accepted month, rollover invoices included |
| `CardExamples.StuckRollover` | apps/creditcard-svc/internal/application/service.go:643-647 | a run from the empty database, constraints enforced, whose charge rolls over into the same month |
| `CardInvoiceRules.PaymentEffect` | apps/creditcard-svc/internal/application/service.go:386-406 | a successful payment adds its full amount to the invoice and returns it to the card uncapped, and moves no other row |
| `CardInvoiceRules.PaymentAcceptedExactly` | apps/creditcard-svc/internal/application/service.go:381-406 | without refused writes a payment succeeds exactly for the user's unpaid invoice of a live card with a positive amount up to what is owed, and with the constraints enforced only if it brings the available credit to zero at least |
| `CardInvoiceRules.ChargeAcceptedExactly` | apps/creditcard-svc/internal/application/service.go:452-539 | without refused writes and with new ids a charge succeeds exactly when user, description and date are given, the invoice is the user's, its card is live and has the credit, and the requested invoice is open or an open one of the next month exists; a missing one can be opened only while the constraints are not enforced |
| `CardInvoiceRules.ChargeThenPayRestores` | apps/creditcard-svc/internal/application/service.go:390-539 | charging and then paying the same amount leaves every card as before and the invoice that took the charge owing what it owed |
| `CardInvoiceRules.NewRolloverRefusedBySchema` | apps/creditcard-svc/internal/application/service.go:525-536 | with foreign keys enforced a charge on an invoice that is not open fails and changes nothing whenever the card has no invoice of the next month |
| `CardExamples.FirstRolloverRefused` | apps/creditcard-svc/migrations/001_create_credit_cards_table.sql:47-47 | a run from the empty database whose first rollover is refused with the foreign key enforced, and lands on a new invoice of the next month without it |
| `CardInvoiceRules.LimitCutExactly` | apps/creditcard-svc/internal/domain/credit_card.go:165-172 | a move keeps every available credit non-negative exactly when it is not an update that goes through with a limit below what is used |
| `CardExamples.LimitCutExample` | apps/creditcard-svc/internal/domain/credit_card.go:165-172 | a run that cuts a limit below the used credit and leaves a negative available credit |
| `CardInvoiceRules.OverLimitExactly` | apps/creditcard-svc/internal/domain/credit_card.go:165-172 | over a whole history no card ever owes more than its limit exactly when no such update occurs |
| `CardInvoiceRules.NeverOverLimit` | apps/creditcard-svc/migrations/001_create_credit_cards_table.sql:12-13 | with the constraints enforced in every call no card ever owes more than its limit |
| `CardReplay.ReplayFromEmpty` | apps/creditcard-svc/internal/application/service.go:541-556 | after any serial history folding the outbox rebuilds every card's name, limit, available credit, active flag and liveness and every invoice's card, user, total and paid amount, rollover invoices included |
| `CardReplay.PayTells` | apps/creditcard-svc/internal/application/service.go:408-421 | the amount in a payment event alone moves both the invoice and the card as the rows moved |
| `CardReplay.ChargeTells` | apps/creditcard-svc/internal/application/service.go:541-556 | a transaction event alone suffices to create or extend its invoice and to charge its card |
| `CardRetry.RetryEquivalence` | apps/creditcard-svc/internal/application/service.go:444-449 | if the idempotency store answers and forgets nothing, any serial history leaves the card database as if every request whose non-empty key had already succeeded were removed and keys did not exist |
| `Idempotency.RetryReturnsFirstResponse` | pkg/idempotency/idempotency.go:29-53 | for any service: any later request under a key that succeeded gets the first response and changes nothing, until the key expires |
| `Idempotency.RetryEquivalence` | apps/debt-svc/internal/application/service.go:82-87 | for any service: with a working key store the data after a history is that of the history without its repeated requests, run without keys; debts and investments are instances |
| `Idempotency.HistoryIsPlain` | apps/debt-svc/internal/application/service.go:81-157 | for any service and whatever the key store does or forgets: a history with keys is a history of the plain service, so its laws hold behind keys |
| `Idempotency.ResponseKept` | pkg/idempotency/idempotency.go:40-53 | a stored response is never overwritten, and lost only by expiring |
| `CardRetry.DeleteNotDeduplicated` | apps/creditcard-svc/internal/application/service.go:229-246 | repeating a delete writes its event again and changes no row |
| `CardRetry.ServiceRunsDatabase` | apps/creditcard-svc/internal/application/service.go:373-439 | every history behind idempotency and caches is a history of the database, so the ledger laws apply to it |
| `CardCache.CachesStayOk` | apps/creditcard-svc/internal/application/service.go:433-436 | over every serial run a cached invoice equals the stored one (up to the status if that also moves outside), and a cached card equals the stored one but overstates available credit by exactly the charges posted since it was cached |
| `CardCache.WriteKeepsCaches` | apps/creditcard-svc/internal/application/service.go:568-570 | each request drops or keeps entries so that this stays true |
| `CardCache.CardDropsExactly` | apps/creditcard-svc/internal/application/service.go:433-436 | exactly which writes drop a cached card; a charge does not |
| `CardCache.InvoiceDropsExactly` | apps/creditcard-svc/internal/application/service.go:568-570 | exactly which writes drop a cached invoice |
| `CardCache.ReadCardExactly` | apps/creditcard-svc/internal/application/service.go:134-155 | a card read succeeds exactly for the user's live card, is right in all but available credit, and leaves it cached |
| `CardCache.ReadInvoiceExactly` | apps/creditcard-svc/internal/application/service.go:333-354 | an invoice read likewise |
| `OutboxProtocol.PendingOrDelivered` | pkg/outbox/publisher.go:48-75 | in every interleaving of any passes and failures a marked row is on the topic, a saved typed event is pending or delivered, only saved events are delivered, and untyped ones never |
| `OutboxProtocol.NothingLost` | pkg/outbox/outbox.go:83-87 | a saved event stays saved and a delivered message stays delivered |
| `OutboxProtocol.CopiesAreFailedMarksPlusOne` | pkg/outbox/publisher.go:66-74 | with one publisher and failures without effect, the copies of an event are its failed marks plus one if it is marked |
| `OutboxPublisher.Publisher.PublishPending` | pkg/outbox/publisher.go:48-75 | the loop is exactly one uninterrupted pass of the protocol, and does nothing if the fetch failed |
| `OutboxPublisher.PassIsProtocol` | pkg/outbox/publisher.go:55-74 | handling the fetched events one after another is the protocol run of that pass |
| `OutboxPublisher.CleanPassDrains` | pkg/outbox/publisher.go:55-74 | a pass without failures publishes every pending typed event once in creation order, leaves only untyped rows pending, and the next such pass publishes nothing |
| `OutboxDelivery.DeliveredInOrder` | pkg/outbox/publisher.go:48-75 | with one publisher, increasing creation times and successful publishes, whatever marks fail and wherever passes are cut short: the first copies on the topic are a prefix of the saved events in order, and all of them once every row is marked |
| `OutboxDelivery.TopicIsLogExactly` | pkg/outbox/publisher.go:66-74 | then, between passes and with failed marks that mark nothing, the topic is the saved events exactly, if and only if no mark ever failed |
| `CardDelivery.ConsumerRebuilds` | pkg/outbox/publisher.go:48-75 | end to end: a consumer that skips ids it has seen always holds the view of some first part of the card outbox, and of the stored cards and invoices once the outbox is drained |
| `CardDelivery.PlainConsumerRebuilds` | pkg/outbox/publisher.go:66-74 | a consumer that does not skip rebuilds the view when no mark failed, which is exactly when the topic is the outbox |
| `CardDelivery.SecondCopyCounts` | apps/creditcard-svc/internal/application/service.go:541-556 | a second copy of a transaction event always changes the view |
| `LeaseLock.FirstValueStays` | pkg/idempotency/idempotency.go:29-53 | over every run the first value stored under a key is what each read returns, and what refuses each other store, until its ttl has passed, whatever is stored, locked, unlocked or expires meanwhile |
| `LeaseLock.ValueExpires` | pkg/idempotency/idempotency.go:40-53 | once the ttl has passed the value is gone unless the key is written again |
| `LeaseLock.LeaseLastsExactly` | pkg/idempotency/idempotency.go:55-65 | a lock not given back is held exactly until its ttl has passed |
| `LeaseLock.LocksLeaveValues` | pkg/idempotency/idempotency.go:57-57 | locking and unlocking never touch a key without the lock prefix |
| `LeaseLock.Store.Put` | pkg/idempotency/idempotency.go:40-53 | the first value under a live key stays; a second store fails and changes nothing |
| `LeaseLock.Store.Lock` | pkg/idempotency/idempotency.go:55-65 | a lock is given exactly when no live lock key exists |
| `LeaseLock.Store.Unlock` | pkg/idempotency/idempotency.go:67-75 | an unlock deletes the key only while it carries this token |
| `LeaseLock.MutualExclusion` | pkg/idempotency/idempotency.go:55-75 | in every interleaving of locks, unlocks, expiry and unreported outcomes at most one client holds an unexpired lease on a key |
| `LeaseLock.StaleUnlockHarmless` | pkg/idempotency/idempotency.go:67-75 | an unlock after the lease ran out changes no live key and takes no lease from anyone |
| `LeaseLock.UnlockFrees` | pkg/idempotency/idempotency.go:67-75 | an unlock by the holder frees the key |
| `Investment.InvestmentEntity.Sell` | apps/investment-svc/internal/domain/investment.go:155-176 | error and whole new position of a sell; an error changes nothing |
| `Investment.InvestmentEntity.UpdateAveragePrice` | apps/investment-svc/internal/domain/investment.go:180-187 | the whole new position of a buy |
| `Investment.BuyEffect` | apps/investment-svc/internal/domain/investment.go:180-187 | a buy raises the basis by exactly its own cost, sets the average to the basis per unit cut off, and leaves the status |
| `Investment.SellEffect` | apps/investment-svc/internal/domain/investment.go:155-176 | a sell takes its units and their share of the basis cut off, leaves the average, and is marked sold exactly at zero |
| `Investment.BuysAddUp` | apps/investment-svc/internal/domain/investment.go:180-187 | over any run of buys the basis is the initial one plus what the log paid, to the cent |
| `Investment.BasisWithinCost` | apps/investment-svc/internal/domain/investment.go:155-187 | over any run of trades the basis is between zero and that sum |
| `Investment.TransitionsAre` | apps/investment-svc/internal/domain/investment.go:251-255 | the two status moves of an investment |
| `Investment.TradesMoveStatus` | apps/investment-svc/internal/domain/investment.go:155-197 | over every run of trades the status stays what it was until the quantity first reaches zero and is sold from then on: a cancelled position is left only by selling out, and no buy reactivates |
| `Investment.InvestmentEntity.TransitionStatus` | apps/investment-svc/internal/domain/investment.go:247-267 | succeeds exactly for an allowed move and changes only the status |
| `Investment.InvestmentEntity.ApplyUpdate` | apps/investment-svc/internal/domain/investment.go:200-244 | the update's error and, without one, the whole new row; the cost basis never moves |
| `Investment.SellRoundsUp` | apps/investment-svc/internal/domain/investment.go:166-169 | one sell leaves the exact share of the basis rounded up to a cent |
| `Investment.SellChain` | apps/investment-svc/internal/domain/investment.go:155-176 | after k sells the basis is at least the pro-rata share and less than k cents above it; selling everything leaves zero and sold |
| `Investment.TradesKeepSound` | apps/investment-svc/internal/domain/investment.go:155-187 | over every run of buys and sells averagePrice times quantity <= totalInvested <= (averagePrice + 1) times quantity, and nothing left means sold |
| `Investment.LogExplainsQuantity` | apps/investment-svc/internal/domain/investment.go:169-184 | the quantity is the initial one plus bought minus sold of the trades that took effect |
| `Investment.CreatedSound` | apps/investment-svc/internal/domain/investment.go:137-149 | a new investment satisfies those bounds |
| `Investment.StrictBoundLost` | apps/investment-svc/internal/domain/investment.go:166-169 | a position where a sell turns the strict upper bound into equality |
| `Investment.SellStrictExactly` | apps/investment-svc/internal/domain/investment.go:166-169 | for every sound position a sell keeps the strict bound exactly when the gap below it, shared out to the kept units, is worth a cent |
| `Investment.BuyMakesStrict` | apps/investment-svc/internal/domain/investment.go:180-187 | a buy always yields the strict bound |
| `InvestmentService.Service.CreateInvestment` | apps/investment-svc/internal/application/service.go:46-128 | the write-by-write transaction with rollback, under its idempotency key, has the effect and answer of one atomic step |
| `InvestmentService.Service.UpdateInvestment` | apps/investment-svc/internal/application/service.go:166-265 | the same for an update, with the cached investment, and not the cached portfolio, dropped on success |
| `InvestmentService.Service.DeleteInvestment` | apps/investment-svc/internal/application/service.go:267-284 | the same for a soft delete; the cached investment goes first and the event is written even if no row matched |
| `InvestmentService.Service.GetInvestment` | apps/investment-svc/internal/application/service.go:130-165 | a read answers from the cache or from the live row it then caches |
| `InvestmentService.Service.RecordTransaction` | apps/investment-svc/internal/application/service.go:318-416 | the same for recording a transaction of any kind on a live holding, with the cached portfolio dropped on success |
| `InvestmentEffects.AssetTypesOfSchema` | apps/investment-svc/migrations/001_create_investments_table.sql:9-13 | validation accepts exactly the asset types the table's CHECK lists |
| `InvestmentEffects.CreateEffect` | apps/investment-svc/internal/application/service.go:68-121 | a created holding is stored, answered and recorded as asked for, its basis quantity times price |
| `InvestmentEffects.CreateAcceptedExactly` | apps/investment-svc/internal/domain/investment.go:107-134 | exactly when it is created |
| `InvestmentEffects.UpdateEffect` | apps/investment-svc/internal/application/service.go:213-255 | each given field gets its value, each absent one keeps it, and the basis and all other rows stay |
| `InvestmentEffects.UpdateAcceptedExactly` | apps/investment-svc/internal/domain/investment.go:200-244 | exactly when an update is accepted |
| `InvestmentEffects.DeleteEffect` | apps/investment-svc/internal/application/service.go:267-284 | a delete marks the user's holding, which nobody finds from then on |
| `InvestmentEffects.DeletedStaysDeleted` | apps/investment-svc/internal/application/service.go:267-284 | over every history a deleted holding is never found again |
| `InvestmentEffects.RecordEffect` | apps/investment-svc/internal/application/service.go:332-408 | the stored transaction is the request's with quantity times price as total; a buy adds its units and cost, a sell takes its units, an income moves nothing |
| `InvestmentEffects.RecordRounds` | apps/investment-svc/internal/domain/investment.go:166-185 | the average after a buy and the basis after a sell, rounded as the source does |
| `InvestmentEffects.RecordAcceptedExactly` | apps/investment-svc/internal/application/service.go:332-388 | exactly when a transaction of any kind is accepted |
| `InvestmentEffects.CreateErrors` | apps/investment-svc/internal/domain/investment.go:107-134 | each error of a creation has its cause |
| `InvestmentEffects.UpdateErrors` | apps/investment-svc/internal/domain/investment.go:200-244 | each error of an update has its cause |
| `InvestmentEffects.RecordErrors` | apps/investment-svc/internal/domain/transaction.go:66-86 | each error of a recording has its cause |
| `InvestmentEffects.BasisIsCost` | apps/investment-svc/internal/application/service.go:346-388 | after any history a holding's basis is at most quantity times price at creation plus the totals of its buys, and exactly that if it was never sold from |
| `InvestmentRules.HistoryKeeps` | apps/investment-svc/internal/application/service.go:346-388 | after any history whose updates set neither quantity nor price every stored position is sound, and its quantity is both what the outbox adds up to and the created units plus the buys minus the sells of the transaction table |
| `InvestmentRules.ApplyKeepsExactly` | apps/investment-svc/internal/domain/investment.go:222-233 | a request keeps all of that exactly when it is not a stored update that changes the quantity or sets a price more than a cent per unit away from the basis |
| `InvestmentRules.PositionsHoldExactly` | apps/investment-svc/internal/application/service.go:213-240 | over a whole history it holds at every point exactly when no such update occurs |
| `InvestmentRules.EditExample` | apps/investment-svc/internal/domain/investment.go:222-227 | a run that edits a quantity and leaves an unsound position |
| `InvestmentRules.FullSellRefusedBySchema` | apps/investment-svc/migrations/001_create_investments_table.sql:14-14 | with the CHECK enforced in every call no holding ever reaches quantity zero, whatever the history, updates included |
| `InvestmentRules.SellCommitsExactly` | apps/investment-svc/internal/application/service.go:339-388 | with the CHECK enforced, no refused write and a new id, recording a sell succeeds exactly when the fields are given, the holding is the user's and live, the price is not negative, and the quantity is positive and less than what is held |
| `InvestmentRules.SoldOutExactly` | apps/investment-svc/migrations/001_create_investments_table.sql:14-14 | a request leaves a holding without units exactly when it is an unconstrained sell of all of it |
| `InvestmentRules.FullSellExample` | apps/investment-svc/internal/domain/investment.go:155-176 | creating three units and selling all of them: refused with the CHECK, sold without it |
| `InvestmentCache.CachesStayOk` | apps/investment-svc/internal/application/service.go:410-413 | over every history, updates included, a stored position is the cached one after the trades recorded since it was cached; a cached portfolio was computed from active holdings each stored unchanged up to deletion or updated since, and misses only those created since |
| `InvestmentCache.HoldingDropsExactly` | apps/investment-svc/internal/application/service.go:258-262 | exactly which writes drop a cached investment; a transaction does not |
| `InvestmentCache.PortfolioDropsExactly` | apps/investment-svc/internal/application/service.go:410-413 | only a transaction its user records drops a cached portfolio |
| `InvestmentCache.ReadExactly` | apps/investment-svc/internal/application/service.go:130-164 | a read succeeds exactly for the user's live holding, is right in all but its position, and leaves it cached |
| `InvestmentCache.FreshPortfolio` | apps/investment-svc/internal/application/service.go:469-472 | an uncached portfolio is computed from exactly the user's active live holdings |
| `InvestmentCache.StaleSummary` | apps/investment-svc/internal/application/service.go:460-505 | the summary served from the cache is off, overall and per asset type, by exactly the holdings created or updated since on one side and those deleted or updated since on the other |
| `InvestmentCache.StalePortfolioExample` | apps/investment-svc/internal/application/service.go:166-265 | a run whose cached portfolio still counts a cancelled holding |
| `Portfolio.GroupTotalIsFilterThenAdd` | apps/investment-svc/internal/domain/portfolio.go:29-53 | a running group total is what filtering the holdings and then adding up gives |
| `Portfolio.CalculatePortfolioSummary` | apps/investment-svc/internal/domain/portfolio.go:23-70 | the two loops produce the filter-then-group summary: each type present exactly once with its exact sums, overall totals, count and percentages |
| `Portfolio.AllocationsAddUp` | apps/investment-svc/internal/domain/portfolio.go:43-67 | allocations add up to the overall invested and current value, percentages to 100 when there is value |
| `Portfolio.HoldingAdds` | apps/investment-svc/internal/domain/portfolio.go:29-53 | what one more holding adds to each figure, the basis standing in for a missing or zero value, and nothing if it is not active |
| `Portfolio.Shares` | apps/investment-svc/internal/domain/portfolio.go:55-67 | percentages are shares of the whole in hundredths, zero without a positive whole |
| `Portfolio.OrderIrrelevant` | apps/investment-svc/internal/domain/portfolio.go:29-67 | permuting the holdings changes no figure and no allocation, as a set |
| `Portfolio.GroupTotalOfTable` | apps/investment-svc/internal/domain/portfolio.go:29-53 | for any listing of a table the total invested is the sum over its counted rows, overall and per asset type |
| `Portfolio.GetPortfolioSummary` | apps/investment-svc/internal/application/service.go:474-481 | the grouped summary for the amounts invested as current values; for rows with distinct ids its return is zero, overall and in every allocation |
| `DebtEntities.DebtEntity.TransitionStatus` | apps/debt-svc/internal/domain/debt.go:191-213 | succeeds exactly for an allowed move and changes only the status |
| `DebtEntities.DebtEntity.ApplyUpdate` | apps/debt-svc/internal/domain/debt.go:148-189 | the update's error and, without one, the whole new debt; the remaining amount never moves |
| `DebtEntities.DebtEntity.ApplyPayment` | apps/debt-svc/internal/domain/debt.go:215-231 | error and whole new debt of a payment; an error changes nothing |
| `DebtService.Service.CreateDebt` | apps/debt-svc/internal/application/service.go:81-157 | the write-by-write transaction with rollback, under its idempotency key and with the amortization row, has the effect and answer of one atomic step |
| `DebtService.Service.UpdateDebt` | apps/debt-svc/internal/application/service.go:182-276 | the same for an update, with the schedule saved, deleted or left as the source does, and the cached debt dropped on success |
| `DebtService.Service.DeleteDebt` | apps/debt-svc/internal/application/service.go:278-296 | the same for a delete; the cached debt goes first and the event is written even if no row matched |
| `DebtService.Service.RegisterPayment` | apps/debt-svc/internal/application/service.go:317-388 | the same for a payment, with the cached debt dropped on success |
| `DebtEffects.DebtTypesOfSchema` | apps/debt-svc/migrations/001_create_debts_table.sql:8-8 | validation accepts exactly the debt types the table's CHECK lists |
| `DebtEffects.TransitionsAre` | apps/debt-svc/internal/domain/debt.go:195-201 | the nine status moves of a debt |
| `DebtEffects.CreateEffect` | apps/debt-svc/internal/application/service.go:101-150 | a created debt is stored, answered and recorded as asked for, all of it remaining |
| `DebtEffects.CreateAcceptedExactly` | apps/debt-svc/internal/application/service.go:89-131 | exactly when it is created, schedule and dates included |
| `DebtEffects.UpdateEffect` | apps/debt-svc/internal/application/service.go:190-263 | each given field gets its value, each absent one keeps it, and what remains and all other rows stay |
| `DebtEffects.UpdateSchedules` | apps/debt-svc/internal/application/service.go:240-249 | an update changes no schedule but the debt's own, to what it calls for, and none without a repository |
| `DebtEffects.UpdateAcceptedExactly` | apps/debt-svc/internal/application/service.go:190-249 | exactly when an update is accepted |
| `DebtEffects.DeleteEffect` | apps/debt-svc/internal/application/service.go:278-296 | a delete marks the user's debt, which nobody finds from then on |
| `DebtEffects.DeletedStaysDeleted` | apps/debt-svc/internal/application/service.go:278-296 | over every run a deleted debt is never found again |
| `DebtEffects.RegisterEffect` | apps/debt-svc/internal/domain/debt.go:215-231 | a payment changes the status exactly when it is all that remained, then to paid off, and no field but remaining and status; payment, answer and event are the request's |
| `DebtEffects.RegisterAcceptedExactly` | apps/debt-svc/internal/application/service.go:325-356 | exactly when a payment is registered |
| `DebtEffects.CreateErrors` | apps/debt-svc/internal/domain/debt.go:105-127 | each error of a creation has its cause |
| `DebtEffects.UpdateErrors` | apps/debt-svc/internal/domain/debt.go:148-189 | each error of an update has its cause |
| `DebtEffects.RegisterErrors` | apps/debt-svc/internal/domain/debt.go:215-224 | each error of a payment has its cause |
| `DebtEffects.PaidOffOnlyByUpdate` | apps/debt-svc/internal/domain/debt.go:225-228 | over every run a debt paid off with something remaining was created so or moved there by an update |
| `DebtService.DropsExactly` | apps/debt-svc/internal/application/service.go:271-273 | exactly which writes drop a cached debt |
| `DebtService.ReadExactly` | apps/debt-svc/internal/application/service.go:159-180 | a debt read succeeds exactly for a cached debt or the user's live one, and answers the stored row |
| `DebtService.Service.GetDebt` | apps/debt-svc/internal/application/service.go:159-180 | a read answers from the cache, whose key is the id alone, or from the row it then caches |
| `DebtService.CachedDebtIsCurrent` | apps/debt-svc/internal/application/service.go:271-273 | in every history, retries and expiring keys included, a cached debt is the live stored one |
| `DebtService.ServiceBalances` | apps/debt-svc/internal/application/service.go:339-372 | the balance law below holds behind keys and cache, after any history of the whole service |
| `DebtLedger.ScheduleFreshExactly` | apps/debt-svc/internal/application/service.go:240-249 | a request keeps every stored schedule the one its debt calls for exactly when it is not an update whose payment rounds to nothing or whose schedule delete fails |
| `DebtLedger.SchedulesStayFresh` | apps/debt-svc/internal/application/service.go:59-77 | over a whole history the schedules are in step at every point exactly when no such update occurs |
| `DebtLedger.StaleSchedule` | apps/debt-svc/internal/application/service.go:70-73 | a run that leaves a stale schedule |
| `DebtLedger.DebtsBalance` | apps/debt-svc/internal/application/service.go:339-372 | in every run remaining plus registered payments is the amount at creation even after the total is edited, and nothing remaining means paid off |
| `DebtLedger.PaidOffIsFinal` | apps/debt-svc/internal/domain/debt.go:195-201 | paid off is never left, and the remaining amount never grows |
| `DebtLedger.TerminalStatusStillPayable` | apps/debt-svc/internal/application/service.go:317-388 | every update that moves a settled or defaulted debt to paid off fails, but registering a payment of the rest succeeds and stores it as paid off |
| `MonthlyReadModel.Projector.Handle` | apps/report-svc/internal/application/projectors.go:20-59 | an event changes exactly its own row as the switch says, or fails on a missing row reported as another error |
| `MonthlyReadModel.Projector.Consume` | apps/report-svc/internal/infrastructure/persistence/monthly_summary_repo.go:42-55 | a stream of events is the fold of the steps; with the shipped repository's error for missing rows an empty table stays empty |
| `MonthlyReadModel.LeastIsLeast` | apps/report-svc/internal/application/projectors.go:37-56 | the running minimum is the least of all prefix sums, the empty prefix included |
| `MonthlyReadModel.ClosedFormExactly` | apps/report-svc/internal/application/projectors.go:37-56 | clamped total = sum minus least prefix sum after every prefix if and only if no creation takes the plain running sum to a new minimum |
| `MonthlyReadModel.ClampedTotalClosedForm` | apps/report-svc/internal/application/projectors.go:37-56 | hence always for non-negative created amounts |
| `MonthlyReadModel.NegativeCreationBreaksClosedForm` | apps/report-svc/internal/application/projectors.go:38-39 | one created event with a negative amount already breaks it |
| `MonthlyReadModel.NetIsDifference` | apps/report-svc/internal/application/projectors.go:40-55 | net savings is always income minus expenses |
| `MonthlyReadModel.EventMoves` | apps/report-svc/internal/application/projectors.go:37-56 | what each kind of event does to the two totals of its period |
| `MonthlyReadModel.RowPerPeriod` | apps/report-svc/internal/application/projectors.go:24-58 | the table has a row exactly for the periods some event named, whatever its kind |
| `MonthlyReadModel.StepsCommute` | apps/report-svc/internal/application/projectors.go:24-35 | events for different user, year and month commute |
| `MonthlyReadModel.RowDependsOnOwnEvents` | apps/report-svc/internal/application/projectors.go:24-58 | a row depends only on its own events in their order, however they interleave with others |
| `UserIsolation.CardReadsOwn` | specs/004-creditcard-service/plan.md:43-43 | after any history a read of a card or invoice shows the asking user's row only |
| `UserIsolation.InvestmentReadsOwn` | apps/investment-svc/internal/application/service.go:130-165 | the same for investments and portfolios |
| `UserIsolation.DebtReadExactly` | apps/debt-svc/internal/application/service.go:159-180 | after any history a debt read is answered with another user's debt exactly when that debt is cached |
| `UserIsolation.DebtReadExample` | apps/debt-svc/internal/application/service.go:55-57 | a run in which it is, and the refusal without the cache entry |
| `UserIsolation.CardKeyExactly` | apps/creditcard-svc/internal/application/service.go:374-379 | a card write is answered with another user's row exactly when its key is known and stores one |
| `UserIsolation.DebtKeyExactly` | apps/debt-svc/internal/application/service.go:82-87 | the same for debts |
| `UserIsolation.InvestmentKeyExactly` | apps/investment-svc/internal/application/service.go:47-52 | the same for investments |
| `UserIsolation.SharedKeyExample` | apps/investment-svc/internal/application/service.go:47-52 | a run of two users sharing a key |

## Left out

- Interleaved calls inside the card, debt and investment services: reads happen outside the transactions, so their isolation is not decided by the code.
- 64-bit overflow: amounts are unbounded integers.
- IEEE-754 rounding: float64 is `real`; the schedule's balance is an integer there, where float64 is exact up to 2^53.
- Wall-clock fields, id generation, JSON encoding and SQL text: ids and times are inputs, tables are maps, a date column that refuses a text is one of the writes `Env.fault` may refuse, and a stored date comes back as it was given.
- Failing reads: a failed read returns before anything is written, like any other error.
- A reused idempotency key answered to another kind of request: the model returns the stored response, the code decodes it into the other response type.
- Cache deletes that fail: a delete whose error the source ignores is taken to have happened; entries that expire or are not set are steps of their own.
- PostgreSQL's refusal of every statement after a failed one: `DebtLedger.ScheduleRefreshed` follows the code, which ignores a failed schedule delete and goes on.
- Extraction of amounts and periods from event payloads: the read model takes them as inputs.
- The other report projectors, budgets, transactions, identity, the GraphQL gateway, list operations, enum converters and access checks: they would add only easy members.
- The Redis, Kafka and PostgreSQL clients, telemetry, migrations as scripts and generated code.
