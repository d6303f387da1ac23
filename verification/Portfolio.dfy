/** The portfolio summary (investment-svc): one pass that fills a map of allocations, one that reads it out. */
module Portfolio {
  import opened Common
  import opened MapSums
  import I = Investment

  /** A holding in a list, with its id. */
  datatype Item = Item(id: string, row: I.Holding)

  datatype Allocation = Allocation(assetType: string, invested: int, currentValue: int, percentage: real)

  datatype Summary = Summary(totalInvested: int, currentValue: int, totalReturn: int, returnPercentage: real,
                             activeInvestments: int, allocation: seq<Allocation>)

  // ---------------------------------------------------------------- filter, group, add up

  predicate Counted(h: Item) {
    h.row.pos.status == I.Active && !h.row.deleted
  }

  /** A missing or zero current value falls back to the amount invested. */
  function ValueOf(h: Item, values: map<string, int>): int {
    if h.id in values && values[h.id] != 0 then values[h.id] else h.row.pos.totalInvested
  }

  datatype Measure = Invested | CurrentValue | Count

  function Amount(h: Item, values: map<string, int>, m: Measure): int {
    match m
    case Invested => h.row.pos.totalInvested
    case CurrentValue => ValueOf(h, values)
    case Count => 1
  }

  predicate InGroup(h: Item, t: Option<string>) {
    Counted(h) && (t == None || t == Some(h.row.assetType))
  }

  /** The part of a group total a single holding makes up. */
  function Part(h: Item, values: map<string, int>, m: Measure, t: Option<string>): int {
    if InGroup(h, t) then Amount(h, values, m) else 0
  }

  /** The total over the counted holdings of one asset type, or of all. */
  function GroupTotal(hs: seq<Item>, values: map<string, int>, m: Measure, t: Option<string>): int {
    if hs == [] then 0 else GroupTotal(hs[..|hs| - 1], values, m, t) + Part(hs[|hs| - 1], values, m, t)
  }

  lemma GroupTotalSnoc(hs: seq<Item>, h: Item, values: map<string, int>, m: Measure, t: Option<string>)
    ensures GroupTotal(hs + [h], values, m, t) == GroupTotal(hs, values, m, t) + Part(h, values, m, t)
  {
    assert (hs + [h])[..|hs|] == hs;
  }

  function Filter(hs: seq<Item>, t: Option<string>): seq<Item> {
    if hs == [] then [] else (if InGroup(hs[0], t) then [hs[0]] else []) + Filter(hs[1..], t)
  }

  function Total(hs: seq<Item>, values: map<string, int>, m: Measure): int {
    if hs == [] then 0 else Amount(hs[0], values, m) + Total(hs[1..], values, m)
  }

  lemma {:induction false} GroupTotalCons(h: Item, hs: seq<Item>, values: map<string, int>, m: Measure,
                                          t: Option<string>)
    ensures GroupTotal([h] + hs, values, m, t) == Part(h, values, m, t) + GroupTotal(hs, values, m, t)
    decreases |hs|
  {
    if hs == [] {
      assert [h] + hs == [] + [h];
      GroupTotalSnoc([], h, values, m, t);
    } else {
      var front, last := hs[..|hs| - 1], hs[|hs| - 1];
      assert [h] + hs == ([h] + front) + [last] && hs == front + [last];
      GroupTotalCons(h, front, values, m, t);
      GroupTotalSnoc([h] + front, last, values, m, t);
    }
  }

  /** A group total is what filtering and then adding up gives. */
  lemma {:induction false} GroupTotalIsFilterThenAdd(hs: seq<Item>, values: map<string, int>, m: Measure,
                                                     t: Option<string>)
    ensures GroupTotal(hs, values, m, t) == Total(Filter(hs, t), values, m)
  {
    if hs != [] {
      var h, rest := hs[0], hs[1..];
      assert hs == [h] + rest;
      GroupTotalCons(h, rest, values, m, t);
      GroupTotalIsFilterThenAdd(rest, values, m, t);
      assert ([h] + Filter(rest, t))[1..] == Filter(rest, t);
      assert [] + Filter(rest, t) == Filter(rest, t);
    }
  }

  predicate Present(hs: seq<Item>, t: string) {
    exists k :: 0 <= k < |hs| && Counted(hs[k]) && hs[k].row.assetType == t
  }

  function Percentage(part: int, whole: int): real {
    if whole > 0 then part as real / whole as real * 100.0 else 0.0
  }

  /** The allocation the grouping asks for. */
  function AllocationOf(hs: seq<Item>, values: map<string, int>, t: string): Allocation {
    Allocation(t, GroupTotal(hs, values, Invested, Some(t)), GroupTotal(hs, values, CurrentValue, Some(t)),
               Percentage(GroupTotal(hs, values, CurrentValue, Some(t)), GroupTotal(hs, values, CurrentValue, None)))
  }

  predicate Listed(a: seq<Allocation>, t: string) {
    exists k :: 0 <= k < |a| && a[k].assetType == t
  }

  predicate DistinctTypes(a: seq<Allocation>) {
    forall i, j :: 0 <= i < j < |a| ==> a[i].assetType != a[j].assetType
  }

  /** Filter, then group by asset type, then add up; the order of the allocations is free. */
  ghost predicate IsSummary(hs: seq<Item>, values: map<string, int>, s: Summary) {
    && s.totalInvested == GroupTotal(hs, values, Invested, None)
    && s.currentValue == GroupTotal(hs, values, CurrentValue, None)
    && s.activeInvestments == GroupTotal(hs, values, Count, None)
    && s.totalReturn == s.currentValue - s.totalInvested
    && s.returnPercentage == Percentage(s.totalReturn, s.totalInvested)
    && DistinctTypes(s.allocation)
    && (forall t :: Present(hs, t) <==> Listed(s.allocation, t))
    && (forall k :: 0 <= k < |s.allocation| ==> s.allocation[k] == AllocationOf(hs, values, s.allocation[k].assetType))
  }

  // ---------------------------------------------------------------- the operation

  /** The running entry of one type: there once a counted holding has it, with the sums so far. */
  predicate EntryOk(hs: seq<Item>, values: map<string, int>, m: map<string, Allocation>, t: string) {
    && (t in m <==> Present(hs, t))
    && (t in m ==> m[t] == Allocation(t, GroupTotal(hs, values, Invested, Some(t)),
                                      GroupTotal(hs, values, CurrentValue, Some(t)), 0.0))
  }

  ghost predicate MapOk(hs: seq<Item>, values: map<string, int>, m: map<string, Allocation>) {
    forall t :: EntryOk(hs, values, m, t)
  }

  lemma PresentSnoc(hs: seq<Item>, h: Item, t: string)
    ensures Present(hs + [h], t) <==> Present(hs, t) || (Counted(h) && h.row.assetType == t)
  {
    if Present(hs, t) {
      var k :| 0 <= k < |hs| && Counted(hs[k]) && hs[k].row.assetType == t;
      assert (hs + [h])[k] == hs[k];
    }
    if Counted(h) && h.row.assetType == t { assert (hs + [h])[|hs|] == h; }
  }

  lemma {:induction false} AbsentTotal(hs: seq<Item>, values: map<string, int>, m: Measure, t: string)
    requires !Present(hs, t)
    ensures GroupTotal(hs, values, m, Some(t)) == 0
  {
    if hs != [] {
      var front, last := hs[..|hs| - 1], hs[|hs| - 1];
      assert hs == front + [last];
      PresentSnoc(front, last, t);
      AbsentTotal(front, values, m, t);
      GroupTotalSnoc(front, last, values, m, Some(t));
    }
  }

  /** The map after one more holding. */
  function Tally(m: map<string, Allocation>, h: Item, value: int): map<string, Allocation> {
    var a := if h.row.assetType in m then m[h.row.assetType] else Allocation(h.row.assetType, 0, 0, 0.0);
    m[h.row.assetType := a.(invested := a.invested + h.row.pos.totalInvested, currentValue := a.currentValue + value)]
  }

  lemma EntryStep(hs: seq<Item>, h: Item, values: map<string, int>, m: map<string, Allocation>, t: string)
    requires EntryOk(hs, values, m, t)
    ensures EntryOk(hs + [h], values, if Counted(h) then Tally(m, h, ValueOf(h, values)) else m, t)
  {
    PresentSnoc(hs, h, t);
    GroupTotalSnoc(hs, h, values, Invested, Some(t));
    GroupTotalSnoc(hs, h, values, CurrentValue, Some(t));
    if t !in m {
      AbsentTotal(hs, values, Invested, t);
      AbsentTotal(hs, values, CurrentValue, t);
    }
  }

  lemma MapStep(hs: seq<Item>, h: Item, values: map<string, int>, m: map<string, Allocation>)
    requires MapOk(hs, values, m)
    ensures MapOk(hs + [h], values, if Counted(h) then Tally(m, h, ValueOf(h, values)) else m)
  {
    var m' := if Counted(h) then Tally(m, h, ValueOf(h, values)) else m;
    forall t ensures EntryOk(hs + [h], values, m', t) {
      EntryStep(hs, h, values, m, t);
    }
  }

  /** The running totals over some holdings. */
  predicate TotalsOk(hs: seq<Item>, values: map<string, int>, invested: int, value: int, count: int) {
    && invested == GroupTotal(hs, values, Invested, None)
    && value == GroupTotal(hs, values, CurrentValue, None)
    && count == GroupTotal(hs, values, Count, None)
  }

  lemma TotalsStep(hs: seq<Item>, h: Item, values: map<string, int>, invested: int, value: int, count: int)
    requires TotalsOk(hs, values, invested, value, count)
    ensures Counted(h) ==>
      TotalsOk(hs + [h], values, invested + h.row.pos.totalInvested, value + ValueOf(h, values), count + 1)
    ensures !Counted(h) ==> TotalsOk(hs + [h], values, invested, value, count)
  {
    GroupTotalSnoc(hs, h, values, Invested, None);
    GroupTotalSnoc(hs, h, values, CurrentValue, None);
    GroupTotalSnoc(hs, h, values, Count, None);
  }

  /** The entry of the holding's type, started or extended. */
  method AddToMap(allocMap: map<string, Allocation>, h: Item, cv: int) returns (m: map<string, Allocation>)
    ensures m == Tally(allocMap, h, cv)
  {
    var t, invested := h.row.assetType, h.row.pos.totalInvested;
    if t in allocMap {
      var alloc := allocMap[t];
      m := allocMap[t := alloc.(invested := alloc.invested + invested, currentValue := alloc.currentValue + cv)];
    } else {
      m := allocMap[t := Allocation(t, invested, cv, 0.0)];
    }
  }

  method CalculatePortfolioSummary(holdings: seq<Item>, values: map<string, int>) returns (s: Summary)
    ensures IsSummary(holdings, values, s)
  {
    var allocMap: map<string, Allocation> := map[];
    var totalInvested, totalValue, active := 0, 0, 0;
    var i := 0;
    while i < |holdings|
      invariant 0 <= i <= |holdings|
      invariant TotalsOk(holdings[..i], values, totalInvested, totalValue, active)
      invariant MapOk(holdings[..i], values, allocMap)
    {
      var h := holdings[i];
      TotalsStep(holdings[..i], h, values, totalInvested, totalValue, active);
      MapStep(holdings[..i], h, values, allocMap);
      assert holdings[..i + 1] == holdings[..i] + [h];
      i := i + 1;
      if h.row.pos.status != I.Active || h.row.deleted { continue; }
      totalInvested := totalInvested + h.row.pos.totalInvested;
      active := active + 1;
      var cv := if h.id in values then values[h.id] else 0;
      if cv == 0 {
        cv := h.row.pos.totalInvested;
      }
      totalValue := totalValue + cv;
      allocMap := AddToMap(allocMap, h, cv);
    }
    assert holdings[..i] == holdings;
    var allocation := ReadOut(holdings, values, allocMap, totalValue);
    var totalReturn := totalValue - totalInvested;
    var returnPercentage := 0.0;
    if totalInvested > 0 {
      returnPercentage := totalReturn as real / totalInvested as real * 100.0;
    }
    s := Summary(totalInvested, totalValue, totalReturn, returnPercentage, active, allocation);
  }

  /** The second loop: over the map in whatever order it comes. */
  method ReadOut(ghost hs: seq<Item>, ghost values: map<string, int>, allocMap: map<string, Allocation>,
                 totalValue: int)
    returns (allocation: seq<Allocation>)
    requires MapOk(hs, values, allocMap) && totalValue == GroupTotal(hs, values, CurrentValue, None)
    ensures DistinctTypes(allocation)
    ensures forall t :: Present(hs, t) <==> Listed(allocation, t)
    ensures forall k :: 0 <= k < |allocation| ==> allocation[k] == AllocationOf(hs, values, allocation[k].assetType)
  {
    allocation := [];
    var left := allocMap.Keys;
    while left != {}
      invariant left <= allocMap.Keys
      invariant DistinctTypes(allocation)
      invariant forall k :: 0 <= k < |allocation| ==> allocation[k] == AllocationOf(hs, values, allocation[k].assetType)
      invariant forall t :: t in allocMap.Keys - left <==> Listed(allocation, t)
      decreases |left|
    {
      var t :| t in left;
      assert EntryOk(hs, values, allocMap, t);
      var alloc := allocMap[t];
      if totalValue > 0 {
        alloc := alloc.(percentage := alloc.currentValue as real / totalValue as real * 100.0);
      }
      assert alloc == AllocationOf(hs, values, t);
      ListedSnoc(allocation, alloc);
      allocation := allocation + [alloc];
      left := left - {t};
    }
    forall t ensures Present(hs, t) <==> Listed(allocation, t) { assert EntryOk(hs, values, allocMap, t); }
  }

  lemma ListedSnoc(a: seq<Allocation>, x: Allocation)
    ensures forall t :: Listed(a + [x], t) <==> Listed(a, t) || t == x.assetType
    ensures DistinctTypes(a) && !Listed(a, x.assetType) ==> DistinctTypes(a + [x])
  {
    var b := a + [x];
    assert b[|a|] == x;
    forall t | Listed(a, t) ensures Listed(b, t) {
      var k :| 0 <= k < |a| && a[k].assetType == t;
      assert b[k].assetType == t;
    }
  }

  // ---------------------------------------------------------------- what a summary guarantees

  function SumInvested(a: seq<Allocation>): int {
    if a == [] then 0 else a[0].invested + SumInvested(a[1..])
  }

  function SumValue(a: seq<Allocation>): int {
    if a == [] then 0 else a[0].currentValue + SumValue(a[1..])
  }

  function SumPercentage(a: seq<Allocation>): real {
    if a == [] then 0.0 else a[0].percentage + SumPercentage(a[1..])
  }

  /** The group totals of the listed types, added up. */
  function SumGroups(hs: seq<Item>, values: map<string, int>, m: Measure, types: seq<string>): int {
    if types == [] then 0
    else GroupTotal(hs, values, m, Some(types[0])) + SumGroups(hs, values, m, types[1..])
  }

  predicate DistinctStrings(types: seq<string>) {
    forall i, j :: 0 <= i < j < |types| ==> types[i] != types[j]
  }

  /** One more holding moves the sum over distinct types by its own part, once. */
  lemma {:induction false} SumGroupsSnoc(hs: seq<Item>, h: Item, values: map<string, int>, m: Measure,
                                         types: seq<string>)
    requires DistinctStrings(types)
    ensures SumGroups(hs + [h], values, m, types)
      == SumGroups(hs, values, m, types) + (if h.row.assetType in types then Part(h, values, m, None) else 0)
  {
    if types != [] {
      GroupTotalSnoc(hs, h, values, m, Some(types[0]));
      SumGroupsSnoc(hs, h, values, m, types[1..]);
      assert types == [types[0]] + types[1..];
      assert types[0] !in types[1..];
    }
  }

  lemma {:induction false} SumGroupsNone(values: map<string, int>, m: Measure, types: seq<string>)
    ensures SumGroups([], values, m, types) == 0
  {
    if types != [] { SumGroupsNone(values, m, types[1..]); }
  }

  /** Grouping loses nothing: over distinct types that cover all counted holdings the groups add up to the whole. */
  lemma {:induction false} GroupsPartition(hs: seq<Item>, values: map<string, int>, m: Measure, types: seq<string>)
    requires DistinctStrings(types)
    requires forall k :: 0 <= k < |hs| && Counted(hs[k]) ==> hs[k].row.assetType in types
    ensures SumGroups(hs, values, m, types) == GroupTotal(hs, values, m, None)
  {
    if hs == [] {
      SumGroupsNone(values, m, types);
    } else {
      var front, last := hs[..|hs| - 1], hs[|hs| - 1];
      assert hs == front + [last];
      GroupsPartition(front, values, m, types);
      SumGroupsSnoc(front, last, values, m, types);
      GroupTotalSnoc(front, last, values, m, None);
    }
  }

  function Types(a: seq<Allocation>): seq<string> {
    seq(|a|, k requires 0 <= k < |a| => a[k].assetType)
  }

  lemma {:induction false} AllocationSums(hs: seq<Item>, values: map<string, int>, a: seq<Allocation>)
    requires forall k :: 0 <= k < |a| ==> a[k] == AllocationOf(hs, values, a[k].assetType)
    ensures SumInvested(a) == SumGroups(hs, values, Invested, Types(a))
    ensures SumValue(a) == SumGroups(hs, values, CurrentValue, Types(a))
    decreases |a|
  {
    if a != [] {
      assert Types(a)[1..] == Types(a[1..]);
      AllocationSums(hs, values, a[1..]);
    }
  }

  lemma {:induction false} PercentagesAdd(a: seq<Allocation>, whole: int)
    requires whole > 0
    requires forall k :: 0 <= k < |a| ==> a[k].percentage == Percentage(a[k].currentValue, whole)
    ensures SumPercentage(a) == SumValue(a) as real / whole as real * 100.0
    decreases |a|
  {
    if a != [] {
      PercentagesAdd(a[1..], whole);
      AddQuotients(a[0].currentValue as real, SumValue(a[1..]) as real, whole as real);
    }
  }

  lemma AddQuotients(x: real, y: real, w: real)
    requires w > 0.0
    ensures x / w * 100.0 + y / w * 100.0 == (x + y) / w * 100.0
  {
    assert x / w + y / w == (x + y) / w;
  }

  lemma Whole(w: real)
    requires w > 0.0
    ensures w / w * 100.0 == 100.0
  {
  }

  lemma TypesCover(hs: seq<Item>, values: map<string, int>, s: Summary)
    requires IsSummary(hs, values, s)
    ensures DistinctStrings(Types(s.allocation))
    ensures forall k :: 0 <= k < |hs| && Counted(hs[k]) ==> hs[k].row.assetType in Types(s.allocation)
  {
    var types := Types(s.allocation);
    forall k | 0 <= k < |hs| && Counted(hs[k]) ensures hs[k].row.assetType in types {
      assert Present(hs, hs[k].row.assetType);
      var j :| 0 <= j < |s.allocation| && s.allocation[j].assetType == hs[k].row.assetType;
      assert types[j] == hs[k].row.assetType;
    }
  }

  lemma PercentagesToHundred(a: seq<Allocation>, whole: int)
    requires whole > 0 && SumValue(a) == whole
    requires forall k :: 0 <= k < |a| ==> a[k].percentage == Percentage(a[k].currentValue, whole)
    ensures SumPercentage(a) == 100.0
  {
    PercentagesAdd(a, whole);
    Whole(whole as real);
  }

  /** The allocations add up to the overall invested amount and current value, and their percentages to 100
      whenever there is a positive value. */
  lemma AllocationsAddUp(hs: seq<Item>, values: map<string, int>, s: Summary)
    requires IsSummary(hs, values, s)
    ensures SumInvested(s.allocation) == s.totalInvested
    ensures SumValue(s.allocation) == s.currentValue
    ensures s.currentValue > 0 ==> SumPercentage(s.allocation) == 100.0
  {
    TypesCover(hs, values, s);
    AllocationSums(hs, values, s.allocation);
    GroupsPartition(hs, values, Invested, Types(s.allocation));
    GroupsPartition(hs, values, CurrentValue, Types(s.allocation));
    if s.currentValue > 0 {
      PercentagesToHundred(s.allocation, s.currentValue);
    }
  }

  /** One more holding: an active one that is not deleted adds one to the count, its basis to what is invested and its
      value to the worth, the basis standing in for a value that is missing or zero; any other changes no figure. */
  lemma HoldingAdds(hs: seq<Item>, h: Item, values: map<string, int>, s: Summary, s': Summary)
    requires IsSummary(hs, values, s) && IsSummary(hs + [h], values, s')
    ensures
      var counts, basis := h.row.pos.status == I.Active && !h.row.deleted, h.row.pos.totalInvested;
      var value := if h.id !in values || values[h.id] == 0 then basis else values[h.id];
      && s'.totalInvested - s.totalInvested == (if counts then basis else 0)
      && s'.currentValue - s.currentValue == (if counts then value else 0)
      && s'.activeInvestments - s.activeInvestments == (if counts then 1 else 0)
      && s'.totalReturn - s.totalReturn == (if counts then value - basis else 0)
      && (forall t :: Listed(s'.allocation, t) <==> Listed(s.allocation, t) || (counts && t == h.row.assetType))
  {
    GroupTotalSnoc(hs, h, values, Invested, None);
    GroupTotalSnoc(hs, h, values, CurrentValue, None);
    GroupTotalSnoc(hs, h, values, Count, None);
    forall t ensures Listed(s'.allocation, t) <==> Listed(s.allocation, t) || (Counted(h) && t == h.row.assetType) {
      PresentSnoc(hs, h, t);
      assert Present(hs, t) <==> Listed(s.allocation, t);
      assert Present(hs + [h], t) <==> Listed(s'.allocation, t);
    }
  }

  /** The figures of nothing, and the percentages as shares: each allocation's and the return's in hundredths of the
      whole. */
  lemma Shares(hs: seq<Item>, values: map<string, int>, s: Summary)
    requires IsSummary(hs, values, s)
    ensures hs == [] ==> s == Summary(0, 0, 0, 0.0, 0, [])
    ensures s.totalInvested > 0 ==> s.returnPercentage * s.totalInvested as real == 100.0 * s.totalReturn as real
    ensures s.totalInvested <= 0 ==> s.returnPercentage == 0.0
    ensures forall k :: 0 <= k < |s.allocation| && s.currentValue > 0 ==>
      s.allocation[k].percentage * s.currentValue as real == 100.0 * s.allocation[k].currentValue as real
    ensures forall k :: 0 <= k < |s.allocation| && s.currentValue <= 0 ==> s.allocation[k].percentage == 0.0
  {
    if s.allocation != [] {
      assert Listed(s.allocation, s.allocation[0].assetType);
      assert Present(hs, s.allocation[0].assetType);
    }
    if s.totalInvested > 0 { ShareOf(s.totalReturn, s.totalInvested); }
    forall k | 0 <= k < |s.allocation| && s.currentValue > 0
      ensures s.allocation[k].percentage * s.currentValue as real == 100.0 * s.allocation[k].currentValue as real
    {
      ShareOf(s.allocation[k].currentValue, s.currentValue);
    }
  }

  lemma ShareOf(part: int, whole: int)
    requires whole > 0
    ensures Percentage(part, whole) * whole as real == 100.0 * part as real
  {
  }

  // ---------------------------------------------------------------- the service's own current values

  predicate DistinctIds(hs: seq<Item>) {
    forall i, j :: 0 <= i < j < |hs| ==> hs[i].id != hs[j].id
  }

  lemma {:induction false} ValueIsInvested(hs: seq<Item>, values: map<string, int>, t: Option<string>)
    requires forall k :: 0 <= k < |hs| ==> hs[k].id in values && values[hs[k].id] == hs[k].row.pos.totalInvested
    ensures GroupTotal(hs, values, CurrentValue, t) == GroupTotal(hs, values, Invested, t)
  {
    if hs != [] { ValueIsInvested(hs[..|hs| - 1], values, t); }
  }

  /** The amount invested under each id; of holdings with the same id the last one counts. */
  function InvestedById(hs: seq<Item>): map<string, int> {
    if hs == [] then map[]
    else
      var last := hs[|hs| - 1];
      InvestedById(hs[..|hs| - 1])[last.id := last.row.pos.totalInvested]
  }

  lemma {:induction false} InvestedByIdHas(hs: seq<Item>, k: nat)
    requires DistinctIds(hs) && k < |hs|
    ensures hs[k].id in InvestedById(hs) && InvestedById(hs)[hs[k].id] == hs[k].row.pos.totalInvested
    decreases |hs|
  {
    if k < |hs| - 1 { InvestedByIdHas(hs[..|hs| - 1], k); }
  }

  /** Every allocation is worth exactly what was invested in it. */
  lemma NoGain(hs: seq<Item>, s: Summary)
    requires DistinctIds(hs) && IsSummary(hs, InvestedById(hs), s)
    ensures s.currentValue == s.totalInvested && s.totalReturn == 0 && s.returnPercentage == 0.0
    ensures forall k :: 0 <= k < |s.allocation| ==> s.allocation[k].currentValue == s.allocation[k].invested
  {
    var values := InvestedById(hs);
    forall k | 0 <= k < |hs| ensures hs[k].id in values && values[hs[k].id] == hs[k].row.pos.totalInvested {
      InvestedByIdHas(hs, k);
    }
    ValueIsInvested(hs, values, None);
    forall k | 0 <= k < |s.allocation| ensures s.allocation[k].currentValue == s.allocation[k].invested {
      ValueIsInvested(hs, values, Some(s.allocation[k].assetType));
    }
  }

  /** GetPortfolioSummary uses the amount invested as current value: its summary is the grouped one for those values,
      and for rows with distinct ids the return it reports is always zero, overall and in every allocation. */
  method GetPortfolioSummary(holdings: seq<Item>) returns (s: Summary)
    ensures IsSummary(holdings, InvestedById(holdings), s)
    ensures DistinctIds(holdings) ==>
      && s.currentValue == s.totalInvested && s.totalReturn == 0 && s.returnPercentage == 0.0
      && forall k :: 0 <= k < |s.allocation| ==> s.allocation[k].currentValue == s.allocation[k].invested
  {
    var values: map<string, int> := map[];
    var i := 0;
    while i < |holdings|
      invariant 0 <= i <= |holdings|
      invariant values == InvestedById(holdings[..i])
    {
      values := values[holdings[i].id := holdings[i].row.pos.totalInvested];
      i := i + 1;
      assert holdings[..i][..i - 1] == holdings[..i - 1];
    }
    assert holdings[..i] == holdings;
    s := CalculatePortfolioSummary(holdings, values);
    if DistinctIds(holdings) { NoGain(holdings, s); }
  }

  // ---------------------------------------------------------------- order does not matter

  lemma {:induction false} GroupTotalMove(a: seq<Item>, b: seq<Item>, h: Item, values: map<string, int>,
                                          m: Measure, t: Option<string>)
    ensures GroupTotal(a + [h] + b, values, m, t) == GroupTotal(a + b, values, m, t) + Part(h, values, m, t)
    decreases |b|
  {
    if b == [] {
      assert a + [h] + b == a + [h] && a + b == a;
      GroupTotalSnoc(a, h, values, m, t);
    } else {
      var front, last := b[..|b| - 1], b[|b| - 1];
      assert a + [h] + b == (a + [h] + front) + [last] && a + b == (a + front) + [last];
      GroupTotalMove(a, front, h, values, m, t);
      GroupTotalSnoc(a + [h] + front, last, values, m, t);
      GroupTotalSnoc(a + front, last, values, m, t);
    }
  }

  /** Where a permutation keeps the last element of the original. */
  lemma SplitAt(front: seq<Item>, last: Item, b: seq<Item>) returns (left: seq<Item>, right: seq<Item>)
    requires multiset(front + [last]) == multiset(b)
    ensures b == left + [last] + right && multiset(front) == multiset(left + right)
  {
    assert last in multiset(front + [last]);
    var k :| 0 <= k < |b| && b[k] == last;
    left, right := b[..k], b[k + 1..];
    assert b == left + [last] + right;
    assert multiset(b) == multiset(left) + multiset{last} + multiset(right);
    assert multiset(front + [last]) == multiset(front) + multiset{last};
    assert multiset(left + right) == multiset(left) + multiset(right) == multiset(b) - multiset{last};
    assert multiset(front) == multiset(b) - multiset{last};
  }

  lemma {:induction false} GroupTotalPermuted(a: seq<Item>, b: seq<Item>, values: map<string, int>,
                                              m: Measure, t: Option<string>)
    requires multiset(a) == multiset(b)
    ensures GroupTotal(a, values, m, t) == GroupTotal(b, values, m, t)
    decreases |a|
  {
    if a == [] {
      assert |multiset(b)| == 0;
    } else {
      var front, last := a[..|a| - 1], a[|a| - 1];
      assert a == front + [last];
      var left, right := SplitAt(front, last, b);
      GroupTotalPermuted(front, left + right, values, m, t);
      GroupTotalMove(left, right, last, values, m, t);
      GroupTotalSnoc(front, last, values, m, t);
    }
  }

  lemma PresentPermuted(a: seq<Item>, b: seq<Item>, t: string)
    requires multiset(a) == multiset(b) && Present(a, t)
    ensures Present(b, t)
  {
    var k :| 0 <= k < |a| && Counted(a[k]) && a[k].row.assetType == t;
    assert a[k] in multiset(b);
    var j :| 0 <= j < |b| && b[j] == a[k];
  }

  /** Summaries of two orderings of the same holdings agree in every figure and in their allocations as a set. */
  lemma OrderIrrelevant(a: seq<Item>, b: seq<Item>, values: map<string, int>, s: Summary, s': Summary)
    requires multiset(a) == multiset(b) && IsSummary(a, values, s) && IsSummary(b, values, s')
    ensures s.(allocation := []) == s'.(allocation := [])
    ensures forall x :: x in s.allocation <==> x in s'.allocation
  {
    GroupTotalPermuted(a, b, values, Invested, None);
    GroupTotalPermuted(a, b, values, CurrentValue, None);
    GroupTotalPermuted(a, b, values, Count, None);
    AllocationsContained(a, b, values, s, s');
    AllocationsContained(b, a, values, s', s);
  }

  lemma AllocationsContained(a: seq<Item>, b: seq<Item>, values: map<string, int>, s: Summary, s': Summary)
    requires multiset(a) == multiset(b) && IsSummary(a, values, s) && IsSummary(b, values, s')
    ensures forall x :: x in s.allocation ==> x in s'.allocation
  {
    forall x | x in s.allocation ensures x in s'.allocation {
      var t := x.assetType;
      var k :| 0 <= k < |s.allocation| && s.allocation[k] == x;
      assert Present(a, t);
      PresentPermuted(a, b, t);
      var j :| 0 <= j < |s'.allocation| && s'.allocation[j].assetType == t;
      GroupTotalPermuted(a, b, values, Invested, Some(t));
      GroupTotalPermuted(a, b, values, CurrentValue, Some(t));
      GroupTotalPermuted(a, b, values, CurrentValue, None);
      assert s'.allocation[j] == x;
    }
  }

  // ---------------------------------------------------------------- the holdings as a table

  /** The list has each row of the table once. */
  ghost predicate Lists(hs: seq<Item>, table: map<string, I.Holding>) {
    && DistinctIds(hs)
    && (forall k :: 0 <= k < |hs| ==> hs[k].id in table && table[hs[k].id] == hs[k].row)
    && (forall i :: i in table ==> exists k :: 0 <= k < |hs| && hs[k].id == i)
  }

  /** What is invested in the counted rows of one asset type, or of all. */
  function InvestedIn(table: map<string, I.Holding>, t: Option<string>): map<string, int> {
    map i | i in table && InGroup(Item(i, table[i]), t) :: table[i].pos.totalInvested
  }

  lemma InvestedWithout(table: map<string, I.Holding>, id: string, t: Option<string>)
    requires id in table
    ensures Sum(InvestedIn(table, t))
      == Sum(InvestedIn(table - {id}, t)) + (if InGroup(Item(id, table[id]), t) then table[id].pos.totalInvested else 0)
  {
    var all, rest := InvestedIn(table, t), InvestedIn(table - {id}, t);
    if InGroup(Item(id, table[id]), t) {
      assert all - {id} == rest;
      SumTakeOut(all, id);
    } else {
      assert all == rest;
    }
  }

  lemma {:induction false} GroupTotalOfTable(hs: seq<Item>, table: map<string, I.Holding>, values: map<string, int>,
                                             t: Option<string>)
    requires Lists(hs, table)
    ensures GroupTotal(hs, values, Invested, t) == Sum(InvestedIn(table, t))
    decreases |hs|
  {
    if hs == [] {
      assert InvestedIn(table, t) == map[];
    } else {
      var last := hs[|hs| - 1];
      ListsFront(hs, table);
      GroupTotalOfTable(hs[..|hs| - 1], table - {last.id}, values, t);
      InvestedWithout(table, last.id, t);
      assert Item(last.id, table[last.id]) == last;
    }
  }

  lemma ListsFront(hs: seq<Item>, table: map<string, I.Holding>)
    requires Lists(hs, table) && hs != []
    ensures Lists(hs[..|hs| - 1], table - {hs[|hs| - 1].id})
  {
    var front, last := hs[..|hs| - 1], hs[|hs| - 1];
    forall i | i in table && i != last.id ensures exists k :: 0 <= k < |front| && front[k].id == i {
      var k :| 0 <= k < |hs| && hs[k].id == i;
      assert front[k].id == i;
    }
  }
}
