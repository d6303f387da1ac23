/** The transactional outbox (pkg/outbox) as a protocol of single steps: any number of publisher passes interleave,
    and every fetch, marshal, publish and mark may fail, including failures whose effect happened anyway. */
module OutboxProtocol {

  datatype Event = Event(id: string, aggregateType: string, aggregateId: string, eventType: string, payload: string,
                         createdAt: int)

  datatype Row = Row(event: Event, published: bool)

  /** One publishPending call in progress: the events still to handle, and whether the first of them has been
      published and is about to be marked. */
  datatype Pass = Pass(queue: seq<Event>, marking: bool)

  /** `failedMarks` is the history of MarkPublished calls that returned an error, or were never made because the
      pass was cut short right after publishing. */
  datatype State = State(rows: map<string, Row>, topic: seq<Event>, passes: map<nat, Pass>, failedMarks: seq<string>)

  const INITIAL := State(map[], [], map[], [])

  datatype Action =
    | Save(event: Event)
    | Fetch(p: nat, events: seq<Event>)
    | SkipUntyped(p: nat)
    | MarshalError(p: nat)
    | PublishOk(p: nat)
    | PublishError(p: nat, arrived: bool)
    | MarkOk(p: nat)
    | MarkError(p: nat, landed: bool)
    | Finish(p: nat)  // the pass ends, at its last event or cut short anywhere

  predicate Distinct(events: seq<Event>) {
    forall i, j :: 0 <= i < j < |events| ==> events[i].id != events[j].id
  }

  predicate Sorted(events: seq<Event>) {
    forall i, j :: 0 <= i < j < |events| ==> events[i].createdAt <= events[j].createdAt
  }

  /** What Pending may return: each unpublished row once, by creation time; ties come in any order. */
  predicate IsPending(rows: map<string, Row>, events: seq<Event>) {
    && Sorted(events) && Distinct(events)
    && (forall k :: 0 <= k < |events| ==> events[k].id in rows && rows[events[k].id] == Row(events[k], false))
    && (forall i :: i in rows && !rows[i].published ==> rows[i].event in events)
  }

  predicate AtHead(s: State, p: nat, marking: bool) {
    p in s.passes && s.passes[p].queue != [] && s.passes[p].marking == marking
  }

  function Head(s: State, p: nat): Event
    requires p in s.passes && s.passes[p].queue != []
  {
    s.passes[p].queue[0]
  }

  /** The pass moves on to its next event. */
  function DropHead(s: State, p: nat): State
    requires p in s.passes && s.passes[p].queue != []
  {
    s.(passes := s.passes[p := Pass(s.passes[p].queue[1..], false)])
  }

  function Mark(rows: map<string, Row>, id: string): map<string, Row> {
    if id in rows then rows[id := rows[id].(published := true)] else rows
  }

  /** One action; one that is not enabled changes nothing. */
  function Next(s: State, a: Action): State {
    match a
    case Save(e) => if e.id in s.rows then s else s.(rows := s.rows[e.id := Row(e, false)])
    case Fetch(p, events) =>
      if p !in s.passes && IsPending(s.rows, events) then s.(passes := s.passes[p := Pass(events, false)]) else s
    case SkipUntyped(p) =>
      if AtHead(s, p, false) && Head(s, p).eventType == "" then DropHead(s, p) else s
    case MarshalError(p) =>
      if AtHead(s, p, false) && Head(s, p).eventType != "" then DropHead(s, p) else s
    case PublishOk(p) =>
      if AtHead(s, p, false) && Head(s, p).eventType != ""
      then s.(topic := s.topic + [Head(s, p)], passes := s.passes[p := s.passes[p].(marking := true)]) else s
    case PublishError(p, arrived) =>
      if AtHead(s, p, false) && Head(s, p).eventType != ""
      then DropHead(s, p).(topic := if arrived then s.topic + [Head(s, p)] else s.topic) else s
    case MarkOk(p) =>
      if AtHead(s, p, true) then DropHead(s, p).(rows := Mark(s.rows, Head(s, p).id)) else s
    case MarkError(p, landed) =>
      if AtHead(s, p, true)
      then DropHead(s, p).(rows := if landed then Mark(s.rows, Head(s, p).id) else s.rows,
                           failedMarks := s.failedMarks + [Head(s, p).id]) else s
    case Finish(p) =>
      s.(passes := s.passes - {p},
         failedMarks := if AtHead(s, p, true) then s.failedMarks + [Head(s, p).id] else s.failedMarks)
  }

  function Run(s: State, actions: seq<Action>): State
    decreases |actions|
  {
    if actions == [] then s else Run(Next(s, actions[0]), actions[1..])
  }

  // ---------------------------------------------------------------- safety of every interleaving

  predicate Saved(s: State, e: Event) {
    e.id in s.rows && s.rows[e.id].event == e
  }

  predicate PassOk(s: State, pass: Pass) {
    && (forall k :: 0 <= k < |pass.queue| ==> Saved(s, pass.queue[k]))
    && (pass.marking ==> pass.queue != [] && pass.queue[0] in s.topic && pass.queue[0].eventType != "")
  }

  predicate Safe(s: State) {
    && (forall i :: i in s.rows ==> s.rows[i].event.id == i)
    && (forall i :: i in s.rows && s.rows[i].published ==> s.rows[i].event in s.topic)
    && (forall k :: 0 <= k < |s.topic| ==> Saved(s, s.topic[k]) && s.topic[k].eventType != "")
    && (forall p :: p in s.passes ==> PassOk(s, s.passes[p]))
  }

  /** Nothing that happens unsaves an event or takes a message back. */
  lemma NextMonotone(s: State, a: Action)
    ensures forall e :: Saved(s, e) ==> Saved(Next(s, a), e)
    ensures s.topic <= Next(s, a).topic
  {
  }

  lemma PassSurvives(s: State, s': State, pass: Pass)
    requires PassOk(s, pass)
    requires forall e :: Saved(s, e) ==> Saved(s', e)
    requires s.topic <= s'.topic
    ensures PassOk(s', pass)
  {
    if pass.marking {
      var k :| 0 <= k < |s.topic| && s.topic[k] == pass.queue[0];
      assert s'.topic[k] == pass.queue[0];
    }
  }

  lemma NextPasses(s: State, a: Action, p: nat)
    requires Safe(s) && p in Next(s, a).passes
    ensures PassOk(Next(s, a), Next(s, a).passes[p])
  {
    var s' := Next(s, a);
    NextMonotone(s, a);
    if p in s.passes {
      PassSurvives(s, s', s.passes[p]);
      if s'.passes[p] != s.passes[p] && !a.PublishOk? {
        assert s'.passes[p] == Pass(s.passes[p].queue[1..], false);
      }
    }
  }

  lemma NextRows(s: State, a: Action, i: string)
    requires Safe(s) && i in Next(s, a).rows
    ensures Next(s, a).rows[i].event.id == i
    ensures Next(s, a).rows[i].published ==> Next(s, a).rows[i].event in Next(s, a).topic
  {
    var s' := Next(s, a);
    NextMonotone(s, a);
    if i in s.rows && s.rows[i].published {
      var k :| 0 <= k < |s.topic| && s.topic[k] == s.rows[i].event;
      assert s'.topic[k] == s.rows[i].event;
    } else if s'.rows[i].published {
      assert PassOk(s, s.passes[a.p]);
    }
  }

  lemma NextTopic(s: State, a: Action, k: nat)
    requires Safe(s) && k < |Next(s, a).topic|
    ensures Saved(Next(s, a), Next(s, a).topic[k]) && Next(s, a).topic[k].eventType != ""
  {
    NextMonotone(s, a);
    if k < |s.topic| {
      assert Next(s, a).topic[k] == s.topic[k];
    } else {
      assert PassOk(s, s.passes[a.p]);
    }
  }

  lemma NextSafe(s: State, a: Action)
    requires Safe(s)
    ensures Safe(Next(s, a))
  {
    var s' := Next(s, a);
    forall p | p in s'.passes ensures PassOk(s', s'.passes[p]) { NextPasses(s, a, p); }
    forall i | i in s'.rows
      ensures s'.rows[i].event.id == i && (s'.rows[i].published ==> s'.rows[i].event in s'.topic)
    {
      NextRows(s, a, i);
    }
    forall k | 0 <= k < |s'.topic| ensures Saved(s', s'.topic[k]) && s'.topic[k].eventType != "" { NextTopic(s, a, k); }
  }

  lemma {:induction false} RunSafe(s: State, actions: seq<Action>)
    requires Safe(s)
    ensures Safe(Run(s, actions))
    decreases |actions|
  {
    if actions != [] {
      NextSafe(s, actions[0]);
      RunSafe(Next(s, actions[0]), actions[1..]);
    }
  }

  /** In every interleaving: a row is marked only once its message is on the topic, so every saved event of
      non-empty type is pending or delivered; only saved, typed events are ever delivered; and an event of
      empty type is never marked. */
  lemma PendingOrDelivered(actions: seq<Action>)
    ensures
      var s := Run(INITIAL, actions);
      && (forall i :: i in s.rows ==>
            && (s.rows[i].published ==> s.rows[i].event in s.topic)
            && (s.rows[i].event.eventType == "" ==> !s.rows[i].published && s.rows[i].event !in s.topic))
      && (forall k :: 0 <= k < |s.topic| ==> Saved(s, s.topic[k]))
  {
    RunSafe(INITIAL, actions);
  }

  /** An event saved at any point stays saved, and a message delivered at any point stays delivered. */
  lemma {:induction false} NothingLost(s: State, actions: seq<Action>, e: Event)
    ensures Saved(s, e) ==> Saved(Run(s, actions), e)
    ensures s.topic <= Run(s, actions).topic
    decreases |actions|
  {
    if actions != [] {
      NextMonotone(s, actions[0]);
      NothingLost(Next(s, actions[0]), actions[1..], e);
    }
  }

  // ---------------------------------------------------------------- a single publisher

  /** Only publisher p runs passes, and failures have no effect. */
  predicate SoleFaithful(p: nat, a: Action) {
    && (a.Save? || a.p == p)
    && (a.PublishError? ==> !a.arrived)
    && (a.MarkError? ==> !a.landed)
  }

  function Published(s: State, id: string): nat {
    if id in s.rows && s.rows[id].published then 1 else 0
  }

  function InHand(s: State, p: nat, e: Event): nat {
    if p in s.passes && s.passes[p].marking && s.passes[p].queue != [] && s.passes[p].queue[0] == e then 1 else 0
  }

  /** Copies on the topic = marks that failed, plus one if marked, plus one if published and about to be marked. */
  predicate CountOk(s: State, p: nat, i: string)
    requires i in s.rows
  {
    multiset(s.topic)[s.rows[i].event] == multiset(s.failedMarks)[i] + Published(s, i) + InHand(s, p, s.rows[i].event)
  }

  predicate QueueOk(s: State, p: nat) {
    && (forall q :: q in s.passes ==> q == p)
    && (p in s.passes ==>
          && Distinct(s.passes[p].queue)
          && (forall k :: 0 <= k < |s.passes[p].queue| ==> Published(s, s.passes[p].queue[k].id) == 0))
    && (forall k :: 0 <= k < |s.failedMarks| ==> s.failedMarks[k] in s.rows)
  }

  predicate SoleOk(s: State, p: nat) {
    Safe(s) && QueueOk(s, p) && forall i :: i in s.rows ==> CountOk(s, p, i)
  }

  lemma TailDistinct(events: seq<Event>)
    requires Distinct(events) && events != []
    ensures Distinct(events[1..])
    ensures forall k :: 0 <= k < |events[1..]| ==> events[1..][k].id != events[0].id
  {
  }

  /** The queue of a pass, after its rows or its head have moved on. */
  lemma QueueTail(s: State, s': State, p: nat)
    requires QueueOk(s, p) && p in s.passes && s.passes[p].queue != []
    requires s'.passes == s.passes[p := Pass(s.passes[p].queue[1..], false)]
    requires s'.rows == s.rows || s'.rows == Mark(s.rows, s.passes[p].queue[0].id)
    requires s'.failedMarks == s.failedMarks
      || (s'.failedMarks == s.failedMarks + [s.passes[p].queue[0].id] && s.passes[p].queue[0].id in s.rows)
    ensures QueueOk(s', p)
  {
    var q := s.passes[p].queue;
    TailDistinct(q);
    forall k | 0 <= k < |q[1..]| ensures Published(s', q[1..][k].id) == 0 {
      assert Published(s, q[k + 1].id) == 0;
    }
  }

  lemma QueueFetch(s: State, p: nat, events: seq<Event>)
    requires QueueOk(s, p) && IsPending(s.rows, events) && p !in s.passes
    ensures QueueOk(Next(s, Fetch(p, events)), p)
  {
  }

  lemma QueueSave(s: State, p: nat, e: Event)
    requires QueueOk(s, p)
    ensures QueueOk(Next(s, Save(e)), p)
  {
  }

  /** The actions of a pass that has fetched. */
  lemma QueueStep(s: State, p: nat, a: Action)
    requires QueueOk(s, p) && !a.Save? && !a.Fetch? && a.p == p && p in s.passes
    requires s.passes[p].queue != [] ==> s.passes[p].queue[0].id in s.rows
    ensures QueueOk(Next(s, a), p)
  {
    var s' := Next(s, a);
    if !a.PublishOk? && !a.Finish? && s'.passes != s.passes {
      QueueTail(s, s', p);
    }
  }

  lemma QueueNext(s: State, p: nat, a: Action)
    requires SoleOk(s, p) && SoleFaithful(p, a)
    ensures QueueOk(Next(s, a), p)
  {
    if a.Save? {
      QueueSave(s, p, a.event);
    } else if a.Fetch? {
      if p !in s.passes && IsPending(s.rows, a.events) { QueueFetch(s, p, a.events); }
    } else if p in s.passes {
      assert PassOk(s, s.passes[p]);
      if s.passes[p].queue != [] { assert Saved(s, s.passes[p].queue[0]); }
      QueueStep(s, p, a);
    }
  }

  lemma CountNew(s: State, p: nat, e: Event)
    requires SoleOk(s, p) && e.id !in s.rows
    ensures CountOk(Next(s, Save(e)), p, e.id)
  {
    assert e !in s.topic;
    assert p in s.passes ==> PassOk(s, s.passes[p]);
  }

  lemma CountAppend(topic: seq<Event>, e: Event, x: Event)
    ensures multiset(topic + [e])[x] == multiset(topic)[x] + (if x == e then 1 else 0)
  {
  }

  lemma MarksAppend(marks: seq<string>, id: string, x: string)
    ensures multiset(marks + [id])[x] == multiset(marks)[x] + (if x == id then 1 else 0)
  {
  }

  /** The pass's current event: its row is the only one that holds it, unpublished, and no later one is it. */
  predicate HeadFacts(s: State, p: nat, i: string)
    requires i in s.rows && p in s.passes && s.passes[p].queue != []
  {
    var h, q := Head(s, p), s.passes[p].queue;
    && (i == h.id <==> s.rows[i].event == h)
    && Published(s, h.id) == 0 && h.id in s.rows
    && (forall k :: 1 <= k < |q| ==> q[k] != h)
  }

  lemma HeadHolds(s: State, p: nat, i: string)
    requires SoleOk(s, p) && i in s.rows && p in s.passes && s.passes[p].queue != []
    ensures HeadFacts(s, p, i)
  {
    assert PassOk(s, s.passes[p]);
    assert Saved(s, s.passes[p].queue[0]);
    assert s.rows[i].event.id == i;
    TailDistinct(s.passes[p].queue);
  }

  lemma CountPublish(s: State, p: nat, i: string)
    requires i in s.rows && CountOk(s, p, i) && AtHead(s, p, false) && HeadFacts(s, p, i)
    ensures CountOk(Next(s, PublishOk(p)), p, i)
  {
    CountAppend(s.topic, Head(s, p), s.rows[i].event);
  }

  lemma CountMark(s: State, p: nat, i: string)
    requires i in s.rows && CountOk(s, p, i) && AtHead(s, p, true) && HeadFacts(s, p, i)
    ensures i in Next(s, MarkOk(p)).rows && CountOk(Next(s, MarkOk(p)), p, i)
    ensures CountOk(Next(s, MarkError(p, false)), p, i)
    ensures CountOk(Next(s, Finish(p)), p, i)
  {
    MarksAppend(s.failedMarks, Head(s, p).id, i);
  }

  /** Whatever the one publisher does, the copies of a row's event keep in step with its marks. */
  lemma CountStep(s: State, p: nat, a: Action, i: string)
    requires i in s.rows && CountOk(s, p, i) && SoleFaithful(p, a)
    requires p in s.passes && s.passes[p].queue != [] ==> HeadFacts(s, p, i)
    ensures i in Next(s, a).rows && CountOk(Next(s, a), p, i)
  {
    if AtHead(s, p, true) {
      CountMark(s, p, i);
    } else if AtHead(s, p, false) {
      CountPublish(s, p, i);
    }
  }

  lemma CountNext(s: State, p: nat, a: Action, i: string)
    requires SoleOk(s, p) && SoleFaithful(p, a) && i in s.rows
    ensures i in Next(s, a).rows && CountOk(Next(s, a), p, i)
  {
    assert CountOk(s, p, i);
    if p in s.passes && s.passes[p].queue != [] { HeadHolds(s, p, i); }
    CountStep(s, p, a, i);
  }

  lemma SoleNext(s: State, p: nat, a: Action)
    requires SoleOk(s, p) && SoleFaithful(p, a)
    ensures SoleOk(Next(s, a), p)
  {
    var s' := Next(s, a);
    NextSafe(s, a);
    QueueNext(s, p, a);
    forall i | i in s'.rows ensures CountOk(s', p, i) {
      if i in s.rows {
        CountNext(s, p, a, i);
      } else {
        CountNew(s, p, a.event);
      }
    }
  }

  /** With one publisher whose failed publishes append nothing and whose failed marks mark nothing, the copies of
      an event on the topic are its failed marks plus one if it is marked, between passes. */
  lemma {:induction false} CopiesAreFailedMarksPlusOne(s: State, p: nat, actions: seq<Action>)
    requires SoleOk(s, p)
    requires forall k :: 0 <= k < |actions| ==> SoleFaithful(p, actions[k])
    ensures SoleOk(Run(s, actions), p)
    ensures
      var s' := Run(s, actions);
      forall i :: i in s'.rows && p !in s'.passes ==>
        multiset(s'.topic)[s'.rows[i].event] == multiset(s'.failedMarks)[i] + (if s'.rows[i].published then 1 else 0)
    decreases |actions|
  {
    if actions == [] {
      forall i | i in s.rows ensures CountOk(s, p, i) {}
    } else {
      SoleNext(s, p, actions[0]);
      forall k | 0 <= k < |actions[1..]| ensures SoleFaithful(p, actions[1..][k]) {
        assert actions[1..][k] == actions[k + 1];
      }
      CopiesAreFailedMarksPlusOne(Next(s, actions[0]), p, actions[1..]);
    }
  }
}
