/** publishPending as the loop it is, tied to the protocol, and what a pass without failures achieves. */
module OutboxPublisher {
  import opened Common
  import opened OutboxProtocol

  /** What happens to one event of a pass. */
  datatype Fate = MarshalFails | PublishFails(arrived: bool) | MarkFails(landed: bool) | Delivered

  /** The protocol actions of handling one event. */
  function ActionsFor(p: nat, e: Event, fate: Fate): seq<Action> {
    if e.eventType == "" then [SkipUntyped(p)]
    else match fate
      case MarshalFails => [MarshalError(p)]
      case PublishFails(arrived) => [PublishError(p, arrived)]
      case MarkFails(landed) => [PublishOk(p), MarkError(p, landed)]
      case Delivered => [PublishOk(p), MarkOk(p)]
  }

  function PassActions(p: nat, events: seq<Event>, fates: seq<Fate>): seq<Action>
    requires |events| == |fates|
  {
    if events == [] then [] else ActionsFor(p, events[0], fates[0]) + PassActions(p, events[1..], fates[1..])
  }

  lemma {:induction false} RunConcat(s: State, a: seq<Action>, b: seq<Action>)
    ensures Run(s, a + b) == Run(Run(s, a), b)
    decreases |a|
  {
    if a == [] {
      assert a + b == b;
    } else {
      assert (a + b)[0] == a[0] && (a + b)[1..] == a[1..] + b;
      RunConcat(Next(s, a[0]), a[1..], b);
    }
  }

  lemma RunOne(s: State, a: Action)
    ensures Run(s, [a]) == Next(s, a)
  {
    assert [a][1..] == [];
  }

  lemma RunTwo(s: State, a: Action, b: Action)
    ensures Run(s, [a, b]) == Next(Next(s, a), b)
  {
    assert [a, b][1..] == [b];
    RunOne(Next(s, a), b);
  }

  /** The shared tables, without the passes in progress. */
  datatype Tables = Tables(rows: map<string, Row>, topic: seq<Event>, failedMarks: seq<string>)

  function Join(t: Tables, passes: map<nat, Pass>): State {
    State(t.rows, t.topic, passes, t.failedMarks)
  }

  /** What handling one event does to the tables. */
  function HandleOne(t: Tables, e: Event, fate: Fate): Tables {
    if e.eventType == "" || fate.MarshalFails? then t
    else match fate
      case PublishFails(arrived) => t.(topic := if arrived then t.topic + [e] else t.topic)
      case MarkFails(landed) =>
        Tables(if landed then Mark(t.rows, e.id) else t.rows, t.topic + [e], t.failedMarks + [e.id])
      case _ => t.(topic := t.topic + [e], rows := Mark(t.rows, e.id))
  }

  function HandleAll(t: Tables, events: seq<Event>, fates: seq<Fate>): Tables
    requires |events| == |fates|
    decreases |events|
  {
    if events == [] then t else HandleAll(HandleOne(t, events[0], fates[0]), events[1..], fates[1..])
  }

  lemma HandleOneIsProtocol(t: Tables, passes: map<nat, Pass>, p: nat, e: Event, rest: seq<Event>, fate: Fate)
    requires p in passes && passes[p] == Pass([e] + rest, false)
    ensures Run(Join(t, passes), ActionsFor(p, e, fate)) == Join(HandleOne(t, e, fate), passes[p := Pass(rest, false)])
  {
    assert ([e] + rest)[1..] == rest;
    var s := Join(t, passes);
    if e.eventType == "" {
      RunOne(s, SkipUntyped(p));
    } else {
      match fate {
        case MarshalFails => RunOne(s, MarshalError(p));
        case PublishFails(arrived) => RunOne(s, PublishError(p, arrived));
        case MarkFails(landed) =>
          RunTwo(s, PublishOk(p), MarkError(p, landed));
          assert passes[p := Pass([e] + rest, true)][p := Pass(rest, false)] == passes[p := Pass(rest, false)];
        case Delivered =>
          RunTwo(s, PublishOk(p), MarkOk(p));
          assert passes[p := Pass([e] + rest, true)][p := Pass(rest, false)] == passes[p := Pass(rest, false)];
      }
    }
  }

  /** Handling the events one after another is the protocol's run of that pass. */
  lemma {:induction false} PassIsProtocol(t: Tables, passes: map<nat, Pass>, p: nat, events: seq<Event>,
                                          fates: seq<Fate>)
    requires |events| == |fates| && p in passes && passes[p] == Pass(events, false)
    ensures Run(Join(t, passes), PassActions(p, events, fates))
      == Join(HandleAll(t, events, fates), passes[p := Pass([], false)])
    decreases |events|
  {
    if events == [] {
      assert passes[p := Pass([], false)] == passes;
    } else {
      var e, rest, fate := events[0], events[1..], fates[0];
      assert events == [e] + rest;
      var later := PassActions(p, rest, fates[1..]);
      HandleOneIsProtocol(t, passes, p, e, rest, fate);
      RunConcat(Join(t, passes), ActionsFor(p, e, fate), later);
      PassIsProtocol(HandleOne(t, e, fate), passes[p := Pass(rest, false)], p, rest, fates[1..]);
      assert passes[p := Pass(rest, false)][p := Pass([], false)] == passes[p := Pass([], false)];
    }
  }

  /** A whole uninterrupted pass, from fetch to end. */
  function WholePass(p: nat, events: seq<Event>, fates: seq<Fate>): seq<Action>
    requires |events| == |fates|
  {
    [Fetch(p, events)] + PassActions(p, events, fates) + [Finish(p)]
  }

  lemma WholePassEffect(t: Tables, passes: map<nat, Pass>, p: nat, events: seq<Event>, fates: seq<Fate>)
    requires |events| == |fates| && p !in passes && IsPending(t.rows, events)
    ensures Run(Join(t, passes), WholePass(p, events, fates)) == Join(HandleAll(t, events, fates), passes)
  {
    var s, actions := Join(t, passes), PassActions(p, events, fates);
    var fetched := passes[p := Pass(events, false)];
    RunOne(s, Fetch(p, events));
    PassIsProtocol(t, fetched, p, events, fates);
    RunConcat(s, [Fetch(p, events)], actions);
    RunConcat(s, [Fetch(p, events)] + actions, [Finish(p)]);
    RunOne(Join(HandleAll(t, events, fates), fetched[p := Pass([], false)]), Finish(p));
    assert fetched[p := Pass([], false)] - {p} == passes;
  }

  class Publisher {
    var rows: map<string, Row>
    var topic: seq<Event>
    var failedMarks: seq<string>

    function View(): Tables
      reads this
    {
      Tables(rows, topic, failedMarks)
    }

    constructor ()
      ensures Join(View(), map[]) == INITIAL
    {
      rows, topic, failedMarks := map[], [], [];
    }

    /** publishPending: `fetched` is what the pending query returned, if it did; `fates` says how marshalling,
        publishing and marking go. The loop is exactly one uninterrupted pass of the protocol, whatever other
        passes are open. */
    method PublishPending(p: nat, fetched: Option<seq<Event>>, fates: seq<Fate>, ghost others: map<nat, Pass>)
      requires fetched.Some? ==> |fates| == |fetched.value| && IsPending(rows, fetched.value)
      requires p !in others
      modifies this
      ensures fetched.None? ==> View() == old(View())
      ensures fetched.Some? ==>
        Join(View(), others) == Run(Join(old(View()), others), WholePass(p, fetched.value, fates))
    {
      if fetched.None? { return; }
      var events := fetched.value;
      WholePassEffect(View(), others, p, events, fates);
      var k := 0;
      while k < |events|
        invariant 0 <= k <= |events|
        invariant HandleAll(View(), events[k..], fates[k..]) == HandleAll(old(View()), events, fates)
      {
        var event, fate := events[k], fates[k];
        assert fates[k..][1..] == fates[k + 1..] && events[k..][1..] == events[k + 1..];
        k := k + 1;
        if event.eventType == "" { continue; }
        if fate.MarshalFails? { continue; }
        if fate.PublishFails? {
          topic := if fate.arrived then topic + [event] else topic;
          continue;
        }
        topic := topic + [event];
        if fate.MarkFails? {
          rows := if fate.landed then Mark(rows, event.id) else rows;
          failedMarks := failedMarks + [event.id];
        } else {
          rows := Mark(rows, event.id);
        }
      }
    }
  }

  // ---------------------------------------------------------------- a pass without failures

  function Typed(events: seq<Event>): seq<Event> {
    if events == [] then []
    else (if events[0].eventType == "" then [] else [events[0]]) + Typed(events[1..])
  }

  function AllDelivered(n: nat): seq<Fate> {
    seq(n, i => Delivered)
  }

  function CleanPass(p: nat, events: seq<Event>): seq<Action> {
    WholePass(p, events, AllDelivered(|events|))
  }

  function MarkAll(rows: map<string, Row>, events: seq<Event>): map<string, Row> {
    if events == [] then rows else MarkAll(Mark(rows, events[0].id), events[1..])
  }

  predicate Names(events: seq<Event>, id: string) {
    exists k :: 0 <= k < |events| && events[k].id == id
  }

  lemma {:induction false} MarkAllMarks(rows: map<string, Row>, events: seq<Event>, i: string)
    requires i in rows
    ensures MarkAll(rows, events).Keys == rows.Keys
    ensures MarkAll(rows, events)[i] == Row(rows[i].event, rows[i].published || Names(events, i))
    decreases |events|
  {
    if events != [] {
      MarkAllMarks(Mark(rows, events[0].id), events[1..], i);
      assert events == [events[0]] + events[1..];
      if Names(events[1..], i) {
        var k :| 0 <= k < |events[1..]| && events[1..][k].id == i;
        assert events[k + 1].id == i;
      }
    }
  }

  lemma {:induction false} MarkAllKeys(rows: map<string, Row>, events: seq<Event>)
    ensures MarkAll(rows, events).Keys == rows.Keys
    decreases |events|
  {
    if events != [] { MarkAllKeys(Mark(rows, events[0].id), events[1..]); }
  }

  lemma {:induction false} CleanHandling(t: Tables, events: seq<Event>)
    ensures HandleAll(t, events, AllDelivered(|events|))
      == Tables(MarkAll(t.rows, Typed(events)), t.topic + Typed(events), t.failedMarks)
    decreases |events|
  {
    if events != [] {
      var e, rest := events[0], events[1..];
      assert AllDelivered(|events|)[1..] == AllDelivered(|rest|);
      CleanHandling(HandleOne(t, e, Delivered), rest);
      if e.eventType == "" {
        assert Typed(events) == Typed(rest);
      } else {
        assert Typed(events) == [e] + Typed(rest);
        assert Typed(events)[1..] == Typed(rest);
        assert t.topic + [e] + Typed(rest) == t.topic + Typed(events);
      }
    }
  }

  lemma {:induction false} TypedUntyped(events: seq<Event>)
    requires forall k :: 0 <= k < |events| ==> events[k].eventType == ""
    ensures Typed(events) == []
  {
    if events != [] { TypedUntyped(events[1..]); }
  }

  lemma {:induction false} TypedHas(events: seq<Event>, e: Event)
    ensures e in Typed(events) <==> e in events && e.eventType != ""
  {
    if events != [] {
      assert events == [events[0]] + events[1..];
      TypedHas(events[1..], e);
    }
  }

  /** Comes before all of the others and is none of them. */
  predicate Leads(x: Event, others: seq<Event>) {
    forall e :: e in others ==> x.createdAt <= e.createdAt && x.id != e.id
  }

  lemma ConsOrdered(x: Event, others: seq<Event>)
    requires Sorted(others) && Distinct(others) && Leads(x, others)
    ensures Sorted([x] + others) && Distinct([x] + others)
  {
    forall k | 0 <= k < |others| ensures others[k] in others {}
  }

  lemma HeadLeads(events: seq<Event>)
    requires Sorted(events) && Distinct(events) && events != []
    ensures Sorted(events[1..]) && Distinct(events[1..]) && Leads(events[0], events[1..])
  {
    forall e | e in events[1..] ensures events[0].createdAt <= e.createdAt && events[0].id != e.id {
      var j :| 0 <= j < |events[1..]| && events[1..][j] == e;
      assert events[j + 1] == e;
    }
  }

  /** The typed events of a list keep its order and are all there, each as often as before. */
  lemma {:induction false} TypedKeepsOrder(events: seq<Event>)
    requires Sorted(events) && Distinct(events)
    ensures Sorted(Typed(events)) && Distinct(Typed(events))
    ensures forall e :: e in Typed(events) <==> e in events && e.eventType != ""
  {
    forall e ensures e in Typed(events) <==> e in events && e.eventType != "" { TypedHas(events, e); }
    if events != [] {
      HeadLeads(events);
      TypedKeepsOrder(events[1..]);
      ConsOrdered(events[0], Typed(events[1..]));
    }
  }

  /** After marking the typed pending events, only untyped rows are pending. */
  lemma DrainedRow(rows: map<string, Row>, events: seq<Event>, i: string)
    requires IsPending(rows, events) && i in rows && rows[i].event.id == i
    ensures i in MarkAll(rows, Typed(events))
    ensures !MarkAll(rows, Typed(events))[i].published <==> !rows[i].published && rows[i].event.eventType == ""
    ensures !rows[i].published && rows[i].event.eventType != "" ==> rows[i].event in Typed(events)
  {
    TypedKeepsOrder(events);
    MarkAllMarks(rows, Typed(events), i);
    if !rows[i].published {
      assert rows[i].event in events;
      if rows[i].event.eventType != "" {
        var k :| 0 <= k < |Typed(events)| && Typed(events)[k] == rows[i].event;
        assert Names(Typed(events), i);
      }
    }
  }

  /** A failure-free pass publishes every pending typed event exactly once, in creation order, whatever other
      passes are open; afterwards only untyped rows are pending, and the next failure-free pass publishes nothing. */
  lemma CleanPassDrains(t: Tables, passes: map<nat, Pass>, p: nat, events: seq<Event>, next: seq<Event>)
    requires p !in passes && (forall i :: i in t.rows ==> t.rows[i].event.id == i) && IsPending(t.rows, events)
    ensures
      var s' := Run(Join(t, passes), CleanPass(p, events));
      && s'.topic == t.topic + Typed(events) && Sorted(Typed(events)) && Distinct(Typed(events))
      && (forall i :: i in t.rows ==>
            && i in s'.rows
            && (!s'.rows[i].published <==> !t.rows[i].published && t.rows[i].event.eventType == "")
            && (!t.rows[i].published && t.rows[i].event.eventType != "" ==> t.rows[i].event in Typed(events)))
      && (IsPending(s'.rows, next) ==> Run(s', CleanPass(p, next)).topic == s'.topic)
  {
    var fates := AllDelivered(|events|);
    WholePassEffect(t, passes, p, events, fates);
    CleanHandling(t, events);
    TypedKeepsOrder(events);
    var t' := HandleAll(t, events, fates);
    forall i | i in t.rows
      ensures i in t'.rows
      ensures !t'.rows[i].published <==> !t.rows[i].published && t.rows[i].event.eventType == ""
      ensures !t.rows[i].published && t.rows[i].event.eventType != "" ==> t.rows[i].event in Typed(events)
    {
      DrainedRow(t.rows, events, i);
    }
    if IsPending(t'.rows, next) {
      WholePassEffect(t', passes, p, next, AllDelivered(|next|));
      CleanHandling(t', next);
      forall k | 0 <= k < |next| ensures next[k].eventType == "" { PendingIsOld(t, events, next[k]); }
      TypedUntyped(next);
    }
  }

  lemma PendingIsOld(t: Tables, events: seq<Event>, e: Event)
    requires (forall i :: i in t.rows ==> t.rows[i].event.id == i) && IsPending(t.rows, events)
    requires e.id in MarkAll(t.rows, Typed(events)) && MarkAll(t.rows, Typed(events))[e.id] == Row(e, false)
    ensures e.eventType == ""
  {
    MarkAllKeys(t.rows, Typed(events));
    DrainedRow(t.rows, events, e.id);
    MarkAllMarks(t.rows, Typed(events), e.id);
  }
}
