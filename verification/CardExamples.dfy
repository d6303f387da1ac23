/** Runs from the empty database that reach the corners of the card service. */
module CardExamples {
  import opened Common
  import opened ReferenceMonth
  import opened CardEntities
  import opened CardLedger
  import opened CardConservation
  import opened CardInvoiceRules

  // ---------------------------------------------------------------- single moves

  function ExampleCard(available: int): Card {
    Card("u", "n", "visa", "credit", "1234", 10, 20, 500, available, true, false)
  }

  function ExampleInvoice(month: string, status: Status): Invoice {
    Invoice("c", "u", month, 0, 0, status, Given("2024-05-10"), Given("2024-06-20"))
  }

  function ExampleEnv(id: string, pick: string, constraints: bool): Env {
    Env(id, "r", pick, 0, constraints)
  }

  /** A card "c" with a limit of 500. */
  function CardOpened(constraints: bool): Ledger {
    Next(EMPTY_LEDGER,
         Call(CreateCreditCard("u", "n", "visa", "credit", "1234", 10, 20, 500), ExampleEnv("c", "", constraints)))
  }

  function InvoiceOpened(l: Ledger, id: string, month: string, constraints: bool): Ledger {
    Next(l, Call(CreateInvoice("c", "u", month, "2024-05-10", "2024-06-20"), ExampleEnv(id, "", constraints)))
  }

  function ChargeOf(invoice: string, amount: int): Request {
    AddTransaction(invoice, "u", "d", amount, "", "2024-05-15", 1)
  }

  /** The one card, untouched, some invoices and no charges yet. */
  ghost predicate Untouched(l: Ledger, invoices: map<string, Invoice>) {
    Inv(l) && l.cards == map["c" := ExampleCard(500)] && l.invoices == invoices && l.txns == map[]
  }

  lemma CardOpens(constraints: bool)
    ensures Untouched(CardOpened(constraints), map[])
  {
    var req := CreateCreditCard("u", "n", "visa", "credit", "1234", 10, 20, 500);
    CreateCardKeeps(EMPTY_LEDGER, req, ExampleEnv("c", "", constraints));
  }

  lemma InvoiceOpens(l: Ledger, invoices: map<string, Invoice>, id: string, month: string, constraints: bool)
    requires Untouched(l, invoices) && id !in invoices && IsValidMonth(month)
    ensures Untouched(InvoiceOpened(l, id, month, constraints), invoices[id := ExampleInvoice(month, Open)])
  {
    var req := CreateInvoice("c", "u", month, "2024-05-10", "2024-06-20");
    CreateInvoiceKeeps(l, req, ExampleEnv(id, "", constraints));
  }

  lemma InvoiceCloses(l: Ledger, invoices: map<string, Invoice>, id: string, month: string)
    requires Untouched(l, invoices) && id in invoices && invoices[id] == ExampleInvoice(month, Open)
    ensures Untouched(Next(l, Transition(id, Closed)), invoices[id := ExampleInvoice(month, Closed)])
  {
    TransitionKeeps(l, id, Closed);
  }

  lemma Months()
    ensures IsValidMonth("2024-05") && NextReferenceMonth("2024-05") == "2024-06" && IsValidMonth("2024-06")
  {
  }

  /** The card with one invoice "i" of May 2024. */
  function MayOpened(constraints: bool): Ledger {
    InvoiceOpened(CardOpened(constraints), "i", "2024-05", constraints)
  }

  function MayClosed(constraints: bool): Ledger {
    Next(MayOpened(constraints), Transition("i", Closed))
  }

  lemma MayOpens(constraints: bool)
    ensures Untouched(MayOpened(constraints), map["i" := ExampleInvoice("2024-05", Open)])
  {
    CardOpens(constraints);
    Months();
    InvoiceOpens(CardOpened(constraints), map[], "i", "2024-05", constraints);
    assert map[]["i" := ExampleInvoice("2024-05", Open)] == map["i" := ExampleInvoice("2024-05", Open)];
  }

  lemma MayCloses(constraints: bool)
    ensures Untouched(MayClosed(constraints), map["i" := ExampleInvoice("2024-05", Closed)])
  {
    MayOpens(constraints);
    var invoices := map["i" := ExampleInvoice("2024-05", Open)];
    InvoiceCloses(MayOpened(constraints), invoices, "i", "2024-05");
    assert invoices["i" := ExampleInvoice("2024-05", Closed)] == map["i" := ExampleInvoice("2024-05", Closed)];
  }

  // ---------------------------------------------------------------- the first rollover

  function June(): Invoice {
    Invoice("c", "u", "2024-06", 0, 0, Open, OnDay("2024-06", 10), OnDay(NextReferenceMonth("2024-06"), 20))
  }

  lemma JuneIsTarget(l: Ledger, constraints: bool)
    requires Untouched(l, map["i" := ExampleInvoice("2024-05", Closed)])
    ensures ResolveTarget(l, ChargeOf("i", 100), ExampleEnv("t", "", constraints)) == Ok(Target("r", June(), true))
  {
    Months();
    assert NoneInMonth(l, "c", "2024-06");
  }

  lemma JuneCharged(l: Ledger, constraints: bool)
    requires Untouched(l, map["i" := ExampleInvoice("2024-05", Closed)])
    ensures
      var out := ChargeTo(l, Target("r", June(), true), ChargeOf("i", 100), ExampleEnv("t", "", constraints));
      && (constraints ==> out == Outcome(l, Err(StoreFailure)))
      && (!constraints ==> out.result.Ok? && "r" in out.data.invoices && out.data.invoices["r"].month == "2024-06")
  {
  }

  /** The first charge after the only invoice has been closed: refused with the constraints enforced, and landing on a
      new invoice of June without them. */
  lemma FirstRolloverRefused(constraints: bool)
    ensures
      var l := MayClosed(constraints);
      var out := ApplyAddTransaction(l, ChargeOf("i", 100), ExampleEnv("t", "", constraints));
      && (constraints ==> out == Outcome(l, Err(StoreFailure)))
      && (!constraints ==> out.result.Ok? && "r" in out.data.invoices && out.data.invoices["r"].month == "2024-06")
  {
    MayCloses(constraints);
    JuneIsTarget(MayClosed(constraints), constraints);
    JuneCharged(MayClosed(constraints), constraints);
  }

  // ---------------------------------------------------------------- paid without a payment

  /** The empty closed invoice is marked as paid from outside. */
  lemma ForcedPaidExample(constraints: bool)
    ensures StatusOk(MayClosed(constraints)) && !StatusOk(Next(MayClosed(constraints), Transition("i", Paid)))
  {
    MayCloses(constraints);
    ForcedPaidBreaksRule(MayClosed(constraints), Transition("i", Paid));
  }

  // ---------------------------------------------------------------- a limit cut below the used credit

  function Charged400(): Ledger {
    Next(MayOpened(false), Call(ChargeOf("i", 400), ExampleEnv("t", "", false)))
  }

  lemma Charges400()
    ensures Charged400().cards == map["c" := ExampleCard(100)]
  {
    MayOpens(false);
    var l := MayOpened(false);
    assert ResolveTarget(l, ChargeOf("i", 400), ExampleEnv("t", "", false)) == Ok(Target("i", l.invoices["i"], false));
    ChargeLeaves100(l);
  }

  lemma ChargeLeaves100(l: Ledger)
    requires Untouched(l, map["i" := ExampleInvoice("2024-05", Open)])
    ensures ChargeTo(l, Target("i", l.invoices["i"], false), ChargeOf("i", 400), ExampleEnv("t", "", false)).data.cards
      == map["c" := ExampleCard(100)]
  {
  }

  /** Without the constraints a card that has used 400 of 500 takes a limit of 300 and is left with -100. */
  lemma LimitCutExample()
    ensures
      var cut := UpdateCreditCard("c", "u", CardUpdate("u", None, None, None, Some(300), None));
      var l := Next(Charged400(), Call(cut, ExampleEnv("", "", false)));
      "c" in l.cards && l.cards["c"].limit == 300 && l.cards["c"].available == -100
  {
    Charges400();
    CutLeavesNegative(Charged400());
  }

  lemma CutLeavesNegative(l: Ledger)
    requires l.cards == map["c" := ExampleCard(100)]
    ensures
      var cut := UpdateCreditCard("c", "u", CardUpdate("u", None, None, None, Some(300), None));
      var l' := ApplyUpdateCard(l, cut, ExampleEnv("", "", false)).data;
      "c" in l'.cards && l'.cards["c"].limit == 300 && l'.cards["c"].available == -100
  {
  }

  // ---------------------------------------------------------------- a month that never advances

  /** Two invoices of a month with a letter in its year. */
  function StuckOpened(): Ledger {
    InvoiceOpened(InvoiceOpened(CardOpened(true), "a", "20x4-05", true), "b", "20x4-05", true)
  }

  /** The first one closed. */
  function StuckClosed(): Ledger {
    Next(StuckOpened(), Transition("a", Closed))
  }

  lemma StuckOpens()
    ensures Untouched(StuckOpened(),
                      map["a" := ExampleInvoice("20x4-05", Open), "b" := ExampleInvoice("20x4-05", Open)])
  {
    StuckMonthExists();
    var first := map["a" := ExampleInvoice("20x4-05", Open)];
    CardOpens(true);
    InvoiceOpens(CardOpened(true), map[], "a", "20x4-05", true);
    assert map[]["a" := ExampleInvoice("20x4-05", Open)] == first;
    InvoiceOpens(InvoiceOpened(CardOpened(true), "a", "20x4-05", true), first, "b", "20x4-05", true);
    assert first["b" := ExampleInvoice("20x4-05", Open)]
        == map["a" := ExampleInvoice("20x4-05", Open), "b" := ExampleInvoice("20x4-05", Open)];
  }

  lemma StuckCloses()
    ensures Untouched(StuckClosed(),
                      map["a" := ExampleInvoice("20x4-05", Closed), "b" := ExampleInvoice("20x4-05", Open)])
  {
    var both := map["a" := ExampleInvoice("20x4-05", Open), "b" := ExampleInvoice("20x4-05", Open)];
    StuckOpens();
    InvoiceCloses(StuckOpened(), both, "a", "20x4-05");
    assert both["a" := ExampleInvoice("20x4-05", Closed)]
        == map["a" := ExampleInvoice("20x4-05", Closed), "b" := ExampleInvoice("20x4-05", Open)];
  }

  /** A charge on the closed one lands on the other invoice of the very same month, with the constraints enforced. */
  lemma StuckRollover()
    ensures
      var out := ApplyAddTransaction(StuckClosed(), ChargeOf("a", 100), ExampleEnv("t", "b", true));
      && out.result.Ok? && out.result.value.TransactionResponse? && out.result.value.txn.invoice == "b"
      && "b" in out.data.invoices && out.data.invoices["b"].month == "20x4-05"
  {
    StuckCloses();
    StuckTarget(StuckClosed());
    StuckCharged(StuckClosed());
  }

  lemma StuckTarget(l: Ledger)
    requires Untouched(l, map["a" := ExampleInvoice("20x4-05", Closed), "b" := ExampleInvoice("20x4-05", Open)])
    ensures ResolveTarget(l, ChargeOf("a", 100), ExampleEnv("t", "b", true))
      == Ok(Target("b", ExampleInvoice("20x4-05", Open), false))
  {
    StuckMonthExists();
    assert MonthMatch(l, "b", "c", "20x4-05");
  }

  lemma StuckCharged(l: Ledger)
    requires Untouched(l, map["a" := ExampleInvoice("20x4-05", Closed), "b" := ExampleInvoice("20x4-05", Open)])
    ensures
      var target := Target("b", ExampleInvoice("20x4-05", Open), false);
      var out := ChargeTo(l, target, ChargeOf("a", 100), ExampleEnv("t", "b", true));
      && out.result.Ok? && out.result.value.TransactionResponse? && out.result.value.txn.invoice == "b"
      && "b" in out.data.invoices && out.data.invoices["b"].month == "20x4-05"
  {
  }
}
