/** Cost basis of one investment (investment-svc): integer weighted averages and proportional sells. */
module Investment {
  import opened Common

  datatype Status = Active | Sold | Cancelled

  datatype Error =
    | MissingField | InvalidAssetType | InvalidQuantity | InvalidPrice | InsufficientQuantity | StatusTransition
    | AccessDenied | NotFound | StoreFailure

  /** The fields that carry money and lifecycle; amounts are unbounded integers, and no operation makes a quantity
      negative. */
  datatype Position = Position(quantity: nat, averagePrice: int, totalInvested: int, status: Status)

  function NewPosition(quantity: int, averagePrice: int, status: Status): Result<Position, Error> {
    if quantity <= 0 then Err(InvalidQuantity)
    else if averagePrice < 0 then Err(InvalidPrice)
    else Ok(Position(quantity, averagePrice, quantity * averagePrice, status))
  }

  function SellError(p: Position, q: int, price: int): Option<Error> {
    if q <= 0 then Some(InvalidQuantity)
    else if price < 0 then Some(InvalidPrice)
    else if q > p.quantity then Some(InsufficientQuantity)
    else None
  }

  /** A sell takes out its share of the cost basis, rounded toward zero. */
  function Sold'(p: Position, q: int): Position
    requires 0 < q <= p.quantity
  {
    p.(totalInvested := p.totalInvested - TruncDiv(p.totalInvested * q, p.quantity),
       quantity := p.quantity - q,
       status := if p.quantity == q then Sold else p.status)
  }

  function Bought(p: Position, q: int, price: int): Position
    requires p.quantity + q > 0
  {
    var totalCost := p.totalInvested + q * price;
    p.(averagePrice := TruncDiv(totalCost, p.quantity + q), quantity := p.quantity + q, totalInvested := totalCost)
  }

  predicate TransitionAllowed(from: Status, to: Status) {
    from == Active && (to == Sold || to == Cancelled)
  }

  predicate ValidAssetType(a: string) {
    a in ["stock", "etf", "real_estate_fund", "treasury", "cdb", "lci", "lca", "crypto", "pension", "fund", "dollar",
          "gold", "other"]
  }

  /** A row of investments; `deleted` stands for a non-null deleted_at. */
  datatype Holding = Holding(
    user: string, name: string, ticker: string, assetType: string, broker: string, pos: Position, deleted: bool)

  datatype InvestmentUpdate = InvestmentUpdate(
    user: string, name: Option<string>, ticker: Option<string>, assetType: Option<string>, quantity: Option<int>,
    averagePrice: Option<int>, broker: Option<string>, status: Option<Status>)

  /** The first half of an update: name, ticker and asset type. */
  function DetailsError(u: InvestmentUpdate): Option<Error> {
    if u.name == Some("") || u.ticker == Some("") then Some(MissingField)
    else if u.assetType.Some? && !ValidAssetType(u.assetType.value) then Some(InvalidAssetType)
    else None
  }

  function Details(h: Holding, u: InvestmentUpdate): Holding {
    h.(name := Or(u.name, h.name), ticker := Or(u.ticker, h.ticker), assetType := Or(u.assetType, h.assetType))
  }

  /** The second half: quantity, price and status. */
  function PositionError(p: Position, u: InvestmentUpdate): Option<Error> {
    if u.quantity.Some? && u.quantity.value <= 0 then Some(InvalidQuantity)
    else if u.averagePrice.Some? && u.averagePrice.value < 0 then Some(InvalidPrice)
    else if u.status.Some? && !TransitionAllowed(p.status, u.status.value) then Some(StatusTransition)
    else None
  }

  function UpdateError(h: Holding, u: InvestmentUpdate): Option<Error> {
    if u.user != "" && u.user != h.user then Some(AccessDenied)
    else if DetailsError(u).Some? then DetailsError(u)
    else PositionError(h.pos, u)
  }

  /** The cost basis is no part of an update: quantity and price are set beside it. */
  function UpdatedPosition(p: Position, u: InvestmentUpdate): (p': Position)
    requires PositionError(p, u) == None
    ensures p'.totalInvested == p.totalInvested
  {
    p.(quantity := Or(u.quantity, p.quantity), averagePrice := Or(u.averagePrice, p.averagePrice),
       status := Or(u.status, p.status))
  }

  function Updated(h: Holding, u: InvestmentUpdate): Holding
    requires UpdateError(h, u) == None
  {
    Details(h, u).(broker := Or(u.broker, h.broker), pos := UpdatedPosition(h.pos, u))
  }

  /** An investment loaded from its repository. */
  class InvestmentEntity {
    var row: Holding

    constructor (h: Holding)
      ensures row == h
    {
      row := h;
    }

    method Sell(sellQuantity: int, sellPrice: int) returns (err: Option<Error>)
      modifies this
      ensures err == SellError(old(row).pos, sellQuantity, sellPrice)
      ensures row == if err == None then old(row).(pos := Sold'(old(row).pos, sellQuantity)) else old(row)
    {
      if sellQuantity <= 0 { return Some(InvalidQuantity); }
      if sellPrice < 0 { return Some(InvalidPrice); }
      var pos := row.pos;
      if sellQuantity > pos.quantity { return Some(InsufficientQuantity); }
      var reduction := TruncDiv(pos.totalInvested * sellQuantity, pos.quantity);
      pos := pos.(totalInvested := pos.totalInvested - reduction);
      pos := pos.(quantity := pos.quantity - sellQuantity);
      if pos.quantity == 0 {
        pos := pos.(status := Sold);
      }
      row := row.(pos := pos);
      return None;
    }

    /** The source divides by the new quantity, so it must not be zero; every caller passes a positive one. */
    method UpdateAveragePrice(buyQuantity: int, buyPrice: int)
      requires row.pos.quantity + buyQuantity > 0
      modifies this
      ensures row == old(row).(pos := Bought(old(row).pos, buyQuantity, buyPrice))
    {
      var pos := row.pos;
      var totalCost := pos.totalInvested + buyQuantity * buyPrice;
      var newQty := pos.quantity + buyQuantity;
      pos := pos.(averagePrice := TruncDiv(totalCost, newQty));
      pos := pos.(quantity := newQty);
      pos := pos.(totalInvested := totalCost);
      row := row.(pos := pos);
    }

    method TransitionStatus(newStatus: Status) returns (err: Option<Error>)
      modifies this
      ensures err == if TransitionAllowed(old(row).pos.status, newStatus) then None else Some(StatusTransition)
      ensures row == if err == None then old(row).(pos := old(row).pos.(status := newStatus)) else old(row)
    {
      var transitions := match row.pos.status case Active => [Sold, Cancelled] case Sold => [] case Cancelled => [];
      for k := 0 to |transitions|
        invariant row == old(row) && newStatus !in transitions[..k]
      {
        if transitions[k] == newStatus {
          row := row.(pos := row.pos.(status := newStatus));
          return None;
        }
      }
      assert transitions[..|transitions|] == transitions;
      return Some(StatusTransition);
    }

    method ApplyDetails(u: InvestmentUpdate) returns (err: Option<Error>)
      modifies this
      ensures err == DetailsError(u)
      ensures err == None ==> row == Details(old(row), u)
      ensures row.pos == old(row).pos
    {
      if u.name.Some? {
        if u.name.value == "" { return Some(MissingField); }
        row := row.(name := u.name.value);
      }
      if u.ticker.Some? {
        if u.ticker.value == "" { return Some(MissingField); }
        row := row.(ticker := u.ticker.value);
      }
      if u.assetType.Some? {
        if !ValidAssetType(u.assetType.value) { return Some(InvalidAssetType); }
        row := row.(assetType := u.assetType.value);
      }
      return None;
    }

    /** Fields are assigned one by one, so an error can leave earlier ones changed in this object; the service then
        drops it. The cost basis never moves. */
    method ApplyUpdate(u: InvestmentUpdate) returns (err: Option<Error>)
      modifies this
      ensures err == UpdateError(old(row), u)
      ensures err == None ==> row == Updated(old(row), u)
      ensures row.pos.totalInvested == old(row).pos.totalInvested
    {
      if u.user != "" && u.user != row.user { return Some(AccessDenied); }
      err := ApplyDetails(u);
      if err.Some? { return; }
      if u.quantity.Some? {
        if u.quantity.value <= 0 { return Some(InvalidQuantity); }
        row := row.(pos := row.pos.(quantity := u.quantity.value));
      }
      if u.averagePrice.Some? {
        if u.averagePrice.value < 0 { return Some(InvalidPrice); }
        row := row.(pos := row.pos.(averagePrice := u.averagePrice.value));
      }
      if u.broker.Some? { row := row.(broker := u.broker.value); }
      if u.status.Some? {
        err := TransitionStatus(u.status.value);
        if err.Some? { return; }
      }
      return None;
    }
  }

  // ---------------------------------------------------------------- one sell

  /** The basis left is the exact share of what is kept, rounded up to a cent. */
  lemma SellRoundsUp(t: int, n: int, q: int)
    requires t >= 0 && 0 < q <= n
    ensures
      var left := t - TruncDiv(t * q, n);
      t * (n - q) <= left * n < t * (n - q) + n && 0 <= left <= t
  {
    MulLe(0, t, q);
    MulLe(q, n, t);
    DivisionBounds(t * q, n);
    var reduction := t * q / n;
    Expand(t, -reduction, n);
    assert t * (n - q) == t * n - t * q by { Expand(n, -q, t); }
    CancelLe(reduction, t, n);
  }

  lemma DivisionBounds(a: int, n: int)
    requires a >= 0 && n > 0
    ensures 0 <= a / n && (a / n) * n <= a < (a / n) * n + n
  {
    assert a == (a / n) * n + a % n;
  }

  // ---------------------------------------------------------------- chains of sells

  /** Every sell of the chain is one the entity accepts. */
  predicate Sellable(p: Position, qs: seq<int>)
    decreases |qs|
  {
    qs == [] || (0 < qs[0] <= p.quantity && Sellable(Sold'(p, qs[0]), qs[1..]))
  }

  function SellAll(p: Position, qs: seq<int>): Position
    requires Sellable(p, qs)
    decreases |qs|
  {
    if qs == [] then p else SellAll(Sold'(p, qs[0]), qs[1..])
  }

  /** After k sells the basis is at least the exact pro-rata share of the starting basis and exceeds it by fewer
      than k cents; in particular selling everything leaves nothing, however the sells were split. */
  lemma {:induction false} SellChain(p: Position, qs: seq<int>)
    requires p.quantity > 0 && p.totalInvested >= 0 && qs != [] && Sellable(p, qs)
    ensures
      var e := SellAll(p, qs);
      && 0 <= e.quantity < p.quantity && 0 <= e.totalInvested
      && p.totalInvested * e.quantity <= e.totalInvested * p.quantity
      && e.totalInvested * p.quantity < p.totalInvested * e.quantity + |qs| * p.quantity
      && (e.quantity == 0 ==> e.totalInvested == 0 && e.status == Sold)
    decreases |qs|
  {
    var mid := Sold'(p, qs[0]);
    SellRoundsUp(p.totalInvested, p.quantity, qs[0]);
    if |qs| == 1 {
      assert SellAll(p, qs) == mid;
    } else {
      assert qs[1..] != [] && mid.quantity > 0;
      SellChain(mid, qs[1..]);
      var e := SellAll(p, qs);
      assert e == SellAll(mid, qs[1..]);
      ChainShare(p.totalInvested, p.quantity, mid.totalInvested, mid.quantity, e.totalInvested, e.quantity, |qs| - 1);
    }
  }

  /** Composing two pro-rata bounds: a share of a share, with the errors adding up. */
  lemma ChainShare(t0: int, n0: int, t1: int, n1: int, t2: int, n2: int, k: int)
    requires 0 < n1 <= n0 && 0 <= n2 <= n1 && k >= 1
    requires t0 * n1 <= t1 * n0 < t0 * n1 + n0
    requires t1 * n2 <= t2 * n1 < t1 * n2 + k * n1
    ensures t0 * n2 <= t2 * n0 < t0 * n2 + (k + 1) * n0
  {
    ChainLow(t0, n0, t1, n1, t2, n2);
    ChainHigh(t0, n0, t1, n1, t2, n2, k * n1, k * n0);
    assert (k * n1) * n0 == (k * n0) * n1;
    assert (k + 1) * n0 == k * n0 + n0;
  }

  lemma ChainLow(t0: int, n0: int, t1: int, n1: int, t2: int, n2: int)
    requires 0 < n1 && 0 <= n0 && 0 <= n2
    requires t0 * n1 <= t1 * n0 && t1 * n2 <= t2 * n1
    ensures t0 * n2 <= t2 * n0
  {
    calc <= {
      (t0 * n2) * n1;
      == { Reorder(t0, n2, n1); }
      (t0 * n1) * n2;
      { MulLe(t0 * n1, t1 * n0, n2); }
      (t1 * n0) * n2;
      == { Reorder(t1, n0, n2); }
      (t1 * n2) * n0;
      { MulLe(t1 * n2, t2 * n1, n0); }
      (t2 * n1) * n0;
      == { Reorder(t2, n1, n0); }
      (t2 * n0) * n1;
    }
    CancelLe(t0 * n2, t2 * n0, n1);
  }

  lemma ChainHigh(t0: int, n0: int, t1: int, n1: int, t2: int, n2: int, e1: int, e0: int)
    requires 0 < n1 <= n0 && 0 <= n2 <= n1 && e1 * n0 == e0 * n1
    requires t1 * n0 < t0 * n1 + n0 && t2 * n1 < t1 * n2 + e1
    ensures t2 * n0 < t0 * n2 + e0 + n0
  {
    calc <= {
      (t2 * n0) * n1;
      == { Reorder(t2, n0, n1); }
      (t2 * n1) * n0;
      { MulLe(t2 * n1, t1 * n2 + e1 - 1, n0); }
      (t1 * n2 + e1 - 1) * n0;
      == { Expand(t1 * n2, e1 - 1, n0); Expand(e1, -1, n0); }
      (t1 * n2) * n0 + e1 * n0 - n0;
      == { Reorder(t1, n2, n0); }
      (t1 * n0) * n2 + e0 * n1 - n0;
      { MulLe(t1 * n0, t0 * n1 + n0, n2); }
      (t0 * n1 + n0) * n2 + e0 * n1 - n0;
      == { Expand(t0 * n1, n0, n2); Reorder(t0, n1, n2); }
      (t0 * n2) * n1 + n0 * n2 + e0 * n1 - n0;
      { MulLe(n2, n1, n0); }
      (t0 * n2) * n1 + n0 * n1 + e0 * n1 - n0;
      == { Expand(t0 * n2, e0 + n0, n1); Expand(e0, n0, n1); }
      (t0 * n2 + (e0 + n0)) * n1 - n0;
    }
    CancelLt(t2 * n0, t0 * n2 + (e0 + n0), n1);
  }

  lemma Expand(a: int, b: int, c: int)
    ensures (a + b) * c == a * c + b * c
  {
  }

  lemma MulLe(a: int, b: int, c: int)
    requires a <= b && c >= 0
    ensures a * c <= b * c
  {
    assert (b - a) * c >= 0;
  }

  lemma CancelLe(a: int, b: int, c: int)
    requires c > 0 && a * c <= b * c
    ensures a <= b
  {
    if a > b { MulLe(b + 1, a, c); }
  }

  lemma CancelLt(a: int, b: int, c: int)
    requires c > 0 && a * c < b * c
    ensures a < b
  {
    if a >= b { MulLe(b, a, c); }
  }

  lemma Reorder(a: int, b: int, c: int)
    ensures (a * b) * c == (a * c) * b
  {
  }

  // ---------------------------------------------------------------- create, buy and sell

  datatype Trade = Buy(quantity: int, price: int) | Sell(quantity: int, price: int)

  /** What NewTransaction lets through. */
  predicate ValidTrade(t: Trade) {
    t.quantity > 0 && t.price >= 0
  }

  /** The entity after one recorded trade; a refused sell leaves it as it was. */
  function ApplyTrade(p: Position, t: Trade): Position
  {
    if !ValidTrade(t) then p
    else match t
      case Buy(q, price) => Bought(p, q, price)
      case Sell(q, price) => if SellError(p, q, price) == None then Sold'(p, q) else p
  }

  /** The trades that took effect, in order. */
  function Log(p: Position, trades: seq<Trade>): seq<Trade>
    decreases |trades|
  {
    if trades == [] then []
    else
      var t := trades[0];
      (if ValidTrade(t) && (t.Sell? ==> SellError(p, t.quantity, t.price) == None) then [t] else [])
      + Log(ApplyTrade(p, t), trades[1..])
  }

  function RunTrades(p: Position, trades: seq<Trade>): Position
    decreases |trades|
  {
    if trades == [] then p else RunTrades(ApplyTrade(p, trades[0]), trades[1..])
  }

  function NetBought(log: seq<Trade>): int {
    if log == [] then 0
    else (if log[0].Buy? then log[0].quantity else -log[0].quantity) + NetBought(log[1..])
  }

  /** The basis lies between the average price and one cent more per unit. */
  predicate Sound(p: Position) {
    && p.averagePrice >= 0
    && p.averagePrice * p.quantity <= p.totalInvested <= (p.averagePrice + 1) * p.quantity
    && (p.quantity == 0 ==> p.status == Status.Sold)
  }

  lemma BuyKeepsSound(p: Position, q: int, price: int)
    requires Sound(p) && q > 0 && price >= 0
    ensures Sound(Bought(p, q, price))
  {
    assert p.averagePrice * p.quantity >= 0;
    assert q * price >= 0;
    AverageBounds(p.totalInvested + q * price, p.quantity + q);
  }

  lemma AverageBounds(total: int, n: int)
    requires total >= 0 && n > 0
    ensures 0 <= total / n && (total / n) * n <= total <= (total / n + 1) * n
  {
    DivisionBounds(total, n);
    Expand(total / n, 1, n);
  }

  lemma SellKeepsSound(p: Position, q: int)
    requires Sound(p) && 0 < q <= p.quantity
    ensures Sound(Sold'(p, q))
  {
    var a, t, n, m := p.averagePrice, p.totalInvested, p.quantity, p.quantity - q;
    assert a * n >= 0;
    SellRoundsUp(t, n, q);
    KeptShare(a, t, n, m, t - TruncDiv(t * q, n));
  }

  /** A basis between a and a + 1 cents per unit stays there when its share is rounded up. */
  lemma KeptShare(a: int, t: int, n: int, m: int, left: int)
    requires n > 0 && m >= 0
    requires a * n <= t <= (a + 1) * n
    requires t * m <= left * n < t * m + n
    ensures a * m <= left <= (a + 1) * m
  {
    calc <= {
      (a * m) * n;
      == { Reorder(a, m, n); }
      (a * n) * m;
      { MulLe(a * n, t, m); }
      t * m;
      left * n;
    }
    CancelLe(a * m, left, n);
    calc <= {
      (left - 1) * n;
      == { Expand(left, -1, n); }
      left * n - n;
      t * m - 1;
      { MulLe(t, (a + 1) * n, m); }
      ((a + 1) * n) * m - 1;
      == { Reorder(a + 1, n, m); }
      ((a + 1) * m) * n - 1;
    }
    CancelLt(left - 1, (a + 1) * m, n);
  }

  lemma TradeKeepsSound(p: Position, t: Trade)
    requires Sound(p)
    ensures Sound(ApplyTrade(p, t))
  {
    if ValidTrade(t) {
      if t.Buy? {
        BuyKeepsSound(p, t.quantity, t.price);
      } else if SellError(p, t.quantity, t.price) == None {
        SellKeepsSound(p, t.quantity);
      }
    }
  }

  /** Over every run of buys and sells the basis stays within one cent per unit of the average price, and
      nothing left means sold. */
  lemma {:induction false} TradesKeepSound(p: Position, trades: seq<Trade>)
    requires Sound(p)
    ensures Sound(RunTrades(p, trades))
    decreases |trades|
  {
    if trades != [] {
      TradeKeepsSound(p, trades[0]);
      TradesKeepSound(ApplyTrade(p, trades[0]), trades[1..]);
    }
  }

  lemma NetBoughtCons(t: Trade, rest: seq<Trade>)
    ensures NetBought([t] + rest) == (if t.Buy? then t.quantity else -t.quantity) + NetBought(rest)
  {
    assert ([t] + rest)[1..] == rest;
  }

  /** The quantity is the initial one plus what the log bought minus what it sold. */
  lemma {:induction false} LogExplainsQuantity(p: Position, trades: seq<Trade>)
    ensures RunTrades(p, trades).quantity == p.quantity + NetBought(Log(p, trades)) >= 0
    decreases |trades|
  {
    if trades != [] {
      var p' := ApplyTrade(p, trades[0]);
      LogExplainsQuantity(p', trades[1..]);
      NetBoughtCons(trades[0], Log(p', trades[1..]));
      assert [] + Log(p', trades[1..]) == Log(p', trades[1..]);
    }
  }

  lemma CreatedSound(quantity: int, price: int, status: Status)
    requires NewPosition(quantity, price, status).Ok?
    ensures Sound(NewPosition(quantity, price, status).value)
  {
    assert quantity * price <= (price + 1) * quantity;
  }

  // ---------------------------------------------------------------- what one trade does

  /** A buy adds its own cost to the basis, whatever was paid before, and its units to the quantity; the new average is
      the basis per unit, cents cut off; nothing else changes. */
  lemma BuyEffect(p: Position, q: int, price: int)
    requires q > 0 && price >= 0 && p.totalInvested >= 0
    ensures
      var p' := Bought(p, q, price);
      && p'.totalInvested == p.totalInvested + q * price
      && p'.quantity == p.quantity + q
      && p'.averagePrice * p'.quantity <= p'.totalInvested < p'.averagePrice * p'.quantity + p'.quantity
      && p'.status == p.status
  {
    assert q * price >= 0;
    DivisionBounds(p.totalInvested + q * price, p.quantity + q);
  }

  /** A sell takes its units and their share of the basis, cut off to a cent, leaves the average alone, and marks the
      position sold exactly when nothing is left. */
  lemma SellEffect(p: Position, q: int)
    requires 0 < q <= p.quantity && p.totalInvested >= 0
    ensures
      var p' := Sold'(p, q);
      var taken := p.totalInvested - p'.totalInvested;
      && p'.quantity == p.quantity - q
      && taken * p.quantity <= p.totalInvested * q < taken * p.quantity + p.quantity
      && p'.averagePrice == p.averagePrice
      && p'.status == (if q == p.quantity then Status.Sold else p.status)
  {
    MulLe(0, p.totalInvested, q);
    DivisionBounds(p.totalInvested * q, p.quantity);
  }

  function CostOf(log: seq<Trade>): int {
    if log == [] then 0 else (if log[0].Buy? then log[0].quantity * log[0].price else 0) + CostOf(log[1..])
  }

  /** Over any run of buys the basis is the initial one plus what the log paid, to the cent. */
  lemma {:induction false} BuysAddUp(p: Position, trades: seq<Trade>)
    requires p.totalInvested >= 0 && forall k :: 0 <= k < |trades| ==> trades[k].Buy?
    ensures RunTrades(p, trades).totalInvested == p.totalInvested + CostOf(Log(p, trades))
    ensures RunTrades(p, trades).status == p.status
    decreases |trades|
  {
    if trades != [] {
      var t, p', rest := trades[0], ApplyTrade(p, trades[0]), trades[1..];
      if ValidTrade(t) { BuyEffect(p, t.quantity, t.price); }
      forall k | 0 <= k < |rest| ensures rest[k].Buy? { assert rest[k] == trades[k + 1]; }
      assert p'.totalInvested >= 0 by { if ValidTrade(t) { assert t.quantity * t.price >= 0; } }
      BuysAddUp(p', rest);
      CostCons(t, Log(p', rest));
      assert [] + Log(p', rest) == Log(p', rest);
    }
  }

  lemma CostCons(t: Trade, rest: seq<Trade>)
    ensures CostOf([t] + rest) == (if t.Buy? then t.quantity * t.price else 0) + CostOf(rest)
  {
    assert ([t] + rest)[1..] == rest;
  }

  /** Over any run of buys and sells the basis is at most the initial one plus what the log paid, and never negative. */
  lemma {:induction false} BasisWithinCost(p: Position, trades: seq<Trade>)
    requires p.totalInvested >= 0
    ensures 0 <= RunTrades(p, trades).totalInvested <= p.totalInvested + CostOf(Log(p, trades))
    decreases |trades|
  {
    if trades != [] {
      var t, p', rest := trades[0], ApplyTrade(p, trades[0]), trades[1..];
      var cost := if ValidTrade(t) && t.Buy? then t.quantity * t.price else 0;
      assert 0 <= p'.totalInvested <= p.totalInvested + cost by {
        if ValidTrade(t) && t.Buy? {
          assert t.quantity * t.price >= 0;
          BuyEffect(p, t.quantity, t.price);
        } else if ValidTrade(t) && SellError(p, t.quantity, t.price) == None {
          SellRoundsUp(p.totalInvested, p.quantity, t.quantity);
        }
      }
      BasisWithinCost(p', rest);
      CostCons(t, Log(p', rest));
      assert [] + Log(p', rest) == Log(p', rest);
    }
  }

  /** The status moves there are. */
  lemma TransitionsAre(from: Status, to: Status)
    ensures TransitionAllowed(from, to) <==> (from, to) in {(Active, Status.Sold), (Active, Cancelled)}
  {
  }

  // ---------------------------------------------------------------- the strict upper bound

  /** The basis is less than one cent per unit above the average price. */
  predicate Strict(p: Position) {
    p.totalInvested < (p.averagePrice + 1) * p.quantity
  }

  /** A buy always yields the strict bound. */
  lemma BuyMakesStrict(p: Position, q: int, price: int)
    requires Sound(p) && q > 0 && price >= 0
    ensures Strict(Bought(p, q, price))
  {
    assert p.averagePrice * p.quantity >= 0;
    assert q * price >= 0;
    var total, n := p.totalInvested + q * price, p.quantity + q;
    assert total == (total / n) * n + total % n;
    Expand(total / n, 1, n);
  }

  /** A sell keeps or restores the strict bound exactly when the gap below it, shared out to the units that are kept,
      is worth a whole cent. */
  lemma SellStrictExactly(p: Position, q: int)
    requires Sound(p) && 0 < q <= p.quantity
    ensures Strict(Sold'(p, q)) <==>
      (p.quantity - q) * ((p.averagePrice + 1) * p.quantity - p.totalInvested) >= p.quantity
  {
    var t, n, m := p.totalInvested, p.quantity, p.quantity - q;
    var left := t - TruncDiv(t * q, n);
    assert p.averagePrice * n >= 0;
    SellRoundsUp(t, n, q);
    StrictShare(p.averagePrice + 1, t, n, m, left);
  }

  lemma StrictShare(b: int, t: int, n: int, m: int, left: int)
    requires n > 0 && t * m <= left * n < t * m + n
    ensures left < b * m <==> m * (b * n - t) >= n
  {
    assert m * (b * n - t) == (b * m) * n - t * m by {
      Expand(b * n, -t, m);
      Reorder(b, n, m);
    }
    if left < b * m {
      MulLe(left + 1, b * m, n);
      Expand(left, 1, n);
    }
    if m * (b * n - t) >= n { CancelLt(left, b * m, n); }
  }

  /** A sell of one of 3 units bought for 2 cents loses the strict bound. */
  lemma StrictBoundLost()
    ensures
      var p := Bought(Position(1, 0, 0, Active), 2, 1);
      Sound(p) && Strict(p) && !Strict(Sold'(p, 1))
  {
  }

  // ---------------------------------------------------------------- status

  /** The quantity reached zero after some of the trades. */
  predicate SoldOut(p: Position, trades: seq<Trade>)
    decreases |trades|
  {
    trades != [] && (ApplyTrade(p, trades[0]).quantity == 0 || SoldOut(ApplyTrade(p, trades[0]), trades[1..]))
  }

  /** SoldOut looks at every prefix. */
  lemma {:induction false} SoldOutMeans(p: Position, trades: seq<Trade>)
    ensures SoldOut(p, trades) <==> exists k :: 0 < k <= |trades| && RunTrades(p, trades[..k]).quantity == 0
    decreases |trades|
  {
    if trades != [] {
      var p', rest := ApplyTrade(p, trades[0]), trades[1..];
      SoldOutMeans(p', rest);
      forall k | 0 < k <= |trades| ensures RunTrades(p, trades[..k]) == RunTrades(p', rest[..k - 1]) {
        assert trades[..k][1..] == rest[..k - 1];
      }
      assert RunTrades(p, trades[..1]) == p';
      if k :| 0 < k <= |rest| && RunTrades(p', rest[..k]).quantity == 0 {
        assert RunTrades(p, trades[..k + 1]).quantity == 0;
      }
    }
  }

  /** Over every run of trades the status is what it was, until the quantity first reaches
      zero; from then on it is sold, and no later buy reactivates it. So a cancelled position stays cancelled while it
      is bought and sold, and the one way out of cancelled is to sell out. */
  lemma {:induction false} TradesMoveStatus(p: Position, trades: seq<Trade>)
    requires (p.quantity == 0 ==> p.status == Status.Sold)
    ensures RunTrades(p, trades).status
      == if exists k :: 0 < k <= |trades| && RunTrades(p, trades[..k]).quantity == 0 then Status.Sold else p.status
    decreases |trades|
  {
    SoldOutMeans(p, trades);
    if trades != [] {
      var p', rest := ApplyTrade(p, trades[0]), trades[1..];
      TradesMoveStatus(p', rest);
      SoldOutMeans(p', rest);
    }
  }
}
