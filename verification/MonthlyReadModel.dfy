/** The monthly summary read model (report-svc): a fold of transaction events with deletions clamped at zero. */
module MonthlyReadModel {
  datatype Kind = IncomeCreated | IncomeDeleted | ExpenseCreated | ExpenseDeleted | OtherKind

  /** An event with its amount and period already extracted from the payload; fixed and variable expenses are
      treated alike. */
  datatype Event = Event(kind: Kind, user: string, year: int, month: int, amount: int)

  type Key = (string, int, int)

  datatype Row = Row(income: int, expenses: int, net: int)

  const BLANK := Row(0, 0, 0)

  /** How the repository reports a row that is not there: as the interface's ErrNoData, or, as the shipped
      repository does, as some other error that wraps the driver's. */
  datatype Missing = NoData | OtherError

  function KeyOf(e: Event): Key {
    (e.user, e.year, e.month)
  }

  function Clamp(x: int): int {
    if x < 0 then 0 else x
  }

  /** The switch of the projector. */
  function Project(r: Row, e: Event): Row {
    match e.kind
    case IncomeCreated => Row(r.income + e.amount, r.expenses, r.income + e.amount - r.expenses)
    case IncomeDeleted => Row(Clamp(r.income - e.amount), r.expenses, Clamp(r.income - e.amount) - r.expenses)
    case ExpenseCreated => Row(r.income, r.expenses + e.amount, r.income - (r.expenses + e.amount))
    case ExpenseDeleted => Row(r.income, Clamp(r.expenses - e.amount), r.income - Clamp(r.expenses - e.amount))
    case OtherKind => r
  }

  function RowAt(table: map<Key, Row>, key: Key): Row {
    if key in table then table[key] else BLANK
  }

  function Step(table: map<Key, Row>, e: Event): map<Key, Row> {
    table[KeyOf(e) := Project(RowAt(table, KeyOf(e)), e)]
  }

  function Fold(table: map<Key, Row>, events: seq<Event>): map<Key, Row> {
    if events == [] then table else Step(Fold(table, events[..|events| - 1]), events[|events| - 1])
  }

  class Projector {
    var table: map<Key, Row>
    const missing: Missing

    constructor (missing: Missing)
      ensures table == map[] && this.missing == missing
    {
      table := map[];
      this.missing := missing;
    }

    /** Handle: fetch the row or start a blank one, change its totals, upsert it. */
    method Handle(event: Event) returns (ok: bool)
      modifies this`table
      ensures ok <==> KeyOf(event) in old(table) || missing == NoData
      ensures table == if ok then Step(old(table), event) else old(table)
    {
      var key := KeyOf(event);
      if key !in table && missing != NoData { return false; }
      var existing := if key in table then table[key] else BLANK;
      match event.kind {
        case IncomeCreated =>
          existing := existing.(income := existing.income + event.amount);
          existing := existing.(net := existing.income - existing.expenses);
        case IncomeDeleted =>
          existing := existing.(income := existing.income - event.amount);
          if existing.income < 0 { existing := existing.(income := 0); }
          existing := existing.(net := existing.income - existing.expenses);
        case ExpenseCreated =>
          existing := existing.(expenses := existing.expenses + event.amount);
          existing := existing.(net := existing.income - existing.expenses);
        case ExpenseDeleted =>
          existing := existing.(expenses := existing.expenses - event.amount);
          if existing.expenses < 0 { existing := existing.(expenses := 0); }
          existing := existing.(net := existing.income - existing.expenses);
        case OtherKind =>
      }
      table := table[key := existing];
      return true;
    }

    /** A stream of events, failures being logged and skipped. */
    method Consume(events: seq<Event>)
      modifies this`table
      ensures missing == NoData ==> table == Fold(old(table), events)
      ensures missing == OtherError && old(table) == map[] ==> table == map[]
    {
      var k := 0;
      while k < |events|
        invariant 0 <= k <= |events|
        invariant missing == NoData ==> table == Fold(old(table), events[..k])
        invariant missing == OtherError && old(table) == map[] ==> table == map[]
      {
        var ok := Handle(events[k]);
        assert events[..k + 1][..k] == events[..k];
        k := k + 1;
      }
      assert events[..k] == events;
    }
  }

  // ---------------------------------------------------------------- the closed form

  datatype Side = Income | Expenses

  function Total(r: Row, side: Side): int {
    if side == Income then r.income else r.expenses
  }

  /** What an event adds to one side of one row before clamping. */
  function Delta(e: Event, key: Key, side: Side): int {
    if KeyOf(e) != key then 0
    else match e.kind
      case IncomeCreated => if side == Income then e.amount else 0
      case IncomeDeleted => if side == Income then -e.amount else 0
      case ExpenseCreated => if side == Expenses then e.amount else 0
      case ExpenseDeleted => if side == Expenses then -e.amount else 0
      case OtherKind => 0
  }

  /** The unclamped sum of all deltas. */
  function NetSum(events: seq<Event>, key: Key, side: Side): int {
    if events == [] then 0
    else NetSum(events[..|events| - 1], key, side) + Delta(events[|events| - 1], key, side)
  }

  /** m is the least of the sums of all prefixes, the empty one included. */
  predicate IsLeastPrefixSum(events: seq<Event>, key: Key, side: Side, m: int) {
    && (forall k :: 0 <= k <= |events| ==> m <= NetSum(events[..k], key, side))
    && (exists k :: 0 <= k <= |events| && m == NetSum(events[..k], key, side))
  }

  predicate CreationsNonNegative(events: seq<Event>) {
    forall k :: 0 <= k < |events| && (events[k].kind.IncomeCreated? || events[k].kind.ExpenseCreated?) ==>
      events[k].amount >= 0
  }

  /** The least prefix sum, built up event by event. */
  function Least(events: seq<Event>, key: Key, side: Side): int {
    if events == [] then 0
    else
      var m, sum := Least(events[..|events| - 1], key, side), NetSum(events, key, side);
      if sum < m then sum else m
  }

  lemma {:induction false} LeastIsLeast(events: seq<Event>, key: Key, side: Side)
    ensures IsLeastPrefixSum(events, key, side, Least(events, key, side))
  {
    if events == [] {
      assert events[..0] == [];
    } else {
      var front := events[..|events| - 1];
      LeastIsLeast(front, key, side);
      assert events[..|events|] == events;
      forall k | 0 <= k <= |front| ensures events[..k] == front[..k] {}
      forall k | 0 <= k <= |events| ensures Least(events, key, side) <= NetSum(events[..k], key, side) {
        if k <= |front| { assert events[..k] == front[..k]; }
      }
      var j :| 0 <= j <= |front| && Least(front, key, side) == NetSum(front[..j], key, side);
      assert events[..j] == front[..j];
    }
  }

  predicate Creates(e: Event, key: Key, side: Side) {
    KeyOf(e) == key && (if side == Income then e.kind == IncomeCreated else e.kind == ExpenseCreated)
  }

  /** One event moves a non-negative total by its delta; only a creation is not reflected at zero. */
  lemma StepMoves(table: map<Key, Row>, e: Event, key: Key, side: Side)
    requires Total(RowAt(table, key), side) >= 0
    ensures
      var moved := Total(RowAt(table, key), side) + Delta(e, key, side);
      Total(RowAt(Step(table, e), key), side) == if Creates(e, key, side) then moved else Clamp(moved)
  {
  }

  /** The clamped total is the unclamped sum minus the least prefix sum. */
  predicate Closed(events: seq<Event>, key: Key, side: Side) {
    Total(RowAt(Fold(map[], events), key), side) == NetSum(events, key, side) - Least(events, key, side)
  }

  predicate AlwaysClosed(events: seq<Event>, key: Key, side: Side) {
    forall k :: 0 <= k <= |events| ==> Closed(events[..k], key, side)
  }

  /** No creation takes the plain running sum of the deltas below all it has been before, which only a negative
      created amount can. */
  predicate NeverOverdrawn(events: seq<Event>, key: Key, side: Side) {
    forall k :: 0 <= k < |events| && Creates(events[k], key, side) ==>
      Least(events[..k], key, side) <= NetSum(events[..k], key, side) + events[k].amount
  }

  lemma {:induction false} LeastBelowSum(events: seq<Event>, key: Key, side: Side)
    ensures Least(events, key, side) <= NetSum(events, key, side)
  {
  }

  lemma ClosedSplit(events: seq<Event>, key: Key, side: Side)
    requires events != []
    ensures
      var front := events[..|events| - 1];
      AlwaysClosed(events, key, side) <==> AlwaysClosed(front, key, side) && Closed(events, key, side)
  {
    var front := events[..|events| - 1];
    assert events[..|events|] == events;
    forall k | 0 <= k <= |front| ensures Closed(events[..k], key, side) <==> Closed(front[..k], key, side) {
      assert events[..k] == front[..k];
    }
  }

  lemma OverdrawnSplit(events: seq<Event>, key: Key, side: Side)
    requires events != []
    ensures
      var front, e := events[..|events| - 1], events[|events| - 1];
      NeverOverdrawn(events, key, side) <==>
        && NeverOverdrawn(front, key, side)
        && (Creates(e, key, side) ==> Least(front, key, side) <= NetSum(front, key, side) + e.amount)
  {
    var front := events[..|events| - 1];
    assert forall k :: 0 <= k <= |front| ==> events[..k] == front[..k];
    assert forall k :: 0 <= k < |front| ==> events[k] == front[k];
  }

  /** Reflected walk: from the empty table the closed form holds after every prefix of an event sequence exactly when
      no creation in it takes the plain running sum to a new minimum. */
  lemma {:induction false} ClosedFormExactly(events: seq<Event>, key: Key, side: Side)
    ensures AlwaysClosed(events, key, side) <==> NeverOverdrawn(events, key, side)
    decreases |events|
  {
    if events == [] {
      assert events[..0] == [];
    } else {
      var front, e := events[..|events| - 1], events[|events| - 1];
      ClosedFormExactly(front, key, side);
      ClosedSplit(events, key, side);
      OverdrawnSplit(events, key, side);
      if AlwaysClosed(front, key, side) {
        assert front[..|front|] == front;
        assert Closed(front, key, side);
        LeastBelowSum(front, key, side);
        StepMoves(Fold(map[], front), e, key, side);
      }
    }
  }

  /** In particular it always holds for non-negative created amounts; deleted amounts may be anything. */
  lemma {:induction false} ClampedTotalClosedForm(events: seq<Event>, key: Key, side: Side)
    requires CreationsNonNegative(events)
    ensures Closed(events, key, side)
    decreases |events|
  {
    if events != [] {
      var front, e := events[..|events| - 1], events[|events| - 1];
      assert CreationsNonNegative(front) by {
        forall k | 0 <= k < |front| ensures front[k] == events[k] {}
      }
      ClampedTotalClosedForm(front, key, side);
      LeastBelowSum(front, key, side);
      StepMoves(Fold(map[], front), e, key, side);
    }
  }

  /** A single created event with a negative amount breaks it. */
  lemma NegativeCreationBreaksClosedForm(e: Event)
    requires e.kind == IncomeCreated && e.amount < 0
    ensures !Closed([e], KeyOf(e), Income)
  {
    var none: seq<Event> := [];
    assert [e][..0] == none;
    assert Fold(map[], [e]) == Step(Fold(map[], none), e);
    assert NetSum([e], KeyOf(e), Income) == e.amount;
    assert Least([e], KeyOf(e), Income) == e.amount;
  }

  // ---------------------------------------------------------------- net savings and commutation

  predicate NetOk(table: map<Key, Row>) {
    forall k :: k in table ==> table[k].net == table[k].income - table[k].expenses
  }

  /** Net savings is always income minus expenses. */
  lemma {:induction false} NetIsDifference(table: map<Key, Row>, events: seq<Event>)
    requires NetOk(table)
    ensures NetOk(Fold(table, events))
  {
    if events != [] { NetIsDifference(table, events[..|events| - 1]); }
  }

  /** Events for different rows commute. */
  lemma StepsCommute(table: map<Key, Row>, a: Event, b: Event)
    requires KeyOf(a) != KeyOf(b)
    ensures Step(Step(table, a), b) == Step(Step(table, b), a)
  {
    var ab, ba := Step(Step(table, a), b), Step(Step(table, b), a);
    assert ab.Keys == ba.Keys;
    forall k | k in ab ensures ab[k] == ba[k] {}
  }

  /** The events of one row, in order. */
  function Of(events: seq<Event>, key: Key): seq<Event> {
    if events == [] then []
    else
      var front, e := events[..|events| - 1], events[|events| - 1];
      if KeyOf(e) == key then Of(front, key) + [e] else Of(front, key)
  }

  /** Hence a row depends on its own events only, in their order: any interleaving with other rows' events gives
      the same row. */
  lemma {:induction false} RowDependsOnOwnEvents(table: map<Key, Row>, events: seq<Event>, key: Key)
    ensures RowAt(Fold(table, events), key) == RowAt(Fold(table, Of(events, key)), key)
  {
    if events != [] {
      var front, e := events[..|events| - 1], events[|events| - 1];
      RowDependsOnOwnEvents(table, front, key);
      if KeyOf(e) == key {
        var own := Of(front, key);
        assert (own + [e])[..|own|] == own;
      }
    }
  }

  /** The table has a row exactly for the periods some event named, whatever its kind, and for those it had before. */
  lemma {:induction false} RowPerPeriod(table: map<Key, Row>, events: seq<Event>, key: Key)
    ensures key in Fold(table, events) <==> key in table || exists k :: 0 <= k < |events| && KeyOf(events[k]) == key
  {
    if events != [] {
      var front, e := events[..|events| - 1], events[|events| - 1];
      RowPerPeriod(table, front, key);
      assert forall k :: 0 <= k < |front| ==> front[k] == events[k];
    }
  }

  /** What each kind of event does to the two totals of its period: creations add, deletions take away but not below
      zero, others do nothing. */
  lemma EventMoves(table: map<Key, Row>, e: Event)
    ensures
      var r, r' := RowAt(table, KeyOf(e)), RowAt(Step(table, e), KeyOf(e));
      && (e.kind == IncomeCreated ==> r'.income == r.income + e.amount && r'.expenses == r.expenses)
      && (e.kind == IncomeDeleted ==>
            r'.income == (if e.amount > r.income then 0 else r.income - e.amount) && r'.expenses == r.expenses)
      && (e.kind == ExpenseCreated ==> r'.expenses == r.expenses + e.amount && r'.income == r.income)
      && (e.kind == ExpenseDeleted ==>
            r'.expenses == (if e.amount > r.expenses then 0 else r.expenses - e.amount) && r'.income == r.income)
      && (e.kind == OtherKind ==> r' == r)
  {
  }
}
