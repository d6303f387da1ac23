/** What a reader of the topic sees of one publisher: the saved events in the order they were saved, some repeated. */
module OutboxDelivery {
  import opened OutboxProtocol

  /** The events saved by some actions, in order. */
  function SavesOf(actions: seq<Action>): seq<Event> {
    if actions == [] then []
    else
      var rest := SavesOf(actions[..|actions| - 1]);
      if actions[|actions| - 1].Save? then rest + [actions[|actions| - 1].event] else rest
  }

  /** Typed events with distinct ids and strictly increasing creation times. */
  predicate Ordered(events: seq<Event>) {
    && (forall i, j :: 0 <= i < j < |events| ==>
          events[i].id != events[j].id && events[i].createdAt < events[j].createdAt)
    && (forall k :: 0 <= k < |events| ==> events[k].eventType != "")
  }

  /** Only publisher p runs passes, and every publish succeeds; marks may fail and passes may be cut short. */
  predicate Delivers(p: nat, a: Action) {
    (a.Save? || a.p == p) && !a.PublishError? && !a.MarshalError?
  }

  predicate Seen(topic: seq<Event>, id: string) {
    exists k :: 0 <= k < |topic| && topic[k].id == id
  }

  /** The topic without the messages whose id was there before. */
  function Firsts(topic: seq<Event>): seq<Event> {
    if topic == [] then []
    else
      var front, e := topic[..|topic| - 1], topic[|topic| - 1];
      if Seen(front, e.id) then Firsts(front) else Firsts(front) + [e]
  }

  lemma FirstsSnoc(topic: seq<Event>, e: Event)
    ensures Firsts(topic + [e]) == if Seen(topic, e.id) then Firsts(topic) else Firsts(topic) + [e]
  {
    assert (topic + [e])[..|topic|] == topic;
  }

  lemma {:induction false} FirstsSeen(topic: seq<Event>, id: string)
    ensures Seen(topic, id) <==> Seen(Firsts(topic), id)
    decreases |topic|
  {
    if topic != [] {
      var front, e := topic[..|topic| - 1], topic[|topic| - 1];
      FirstsSeen(front, id);
      SeenSnoc(front, e, id);
      SeenSnoc(Firsts(front), e, id);
      assert topic == front + [e];
    }
  }

  lemma SeenSnoc(topic: seq<Event>, e: Event, id: string)
    ensures Seen(topic + [e], id) <==> Seen(topic, id) || e.id == id
  {
    assert forall k :: 0 <= k < |topic| ==> (topic + [e])[k] == topic[k];
    assert (topic + [e])[|topic|] == e;
  }

  // ---------------------------------------------------------------- the invariant

  /** The table holds exactly the logged events, and only events among the first n are marked. */
  predicate RowsFeed(rows: map<string, Row>, log: seq<Event>, n: nat) {
    && n <= |log|
    && (forall k :: 0 <= k < |log| ==> log[k].id in rows && rows[log[k].id].event == log[k])
    && (forall i :: i in rows ==> Seen(log, i))
    && (forall k :: n <= k < |log| ==> !rows[log[k].id].published)
  }

  /** A pass in progress: its queue is in order, all of it was saved before event m, and it has every event from n to m;
      the event about to be marked is delivered. */
  predicate PassFeeds(pass: Pass, log: seq<Event>, n: nat, m: nat) {
    && n <= m <= |log|
    && Sorted(pass.queue)
    && (forall j :: 0 <= j < |pass.queue| ==> pass.queue[j] in log[..m])
    && (forall k :: n <= k < m ==> log[k] in pass.queue)
    && (pass.marking ==> pass.queue != [] && pass.queue[0] in log[..n])
  }

  /** The first copies on the topic are the first n events of the log. */
  predicate Feeds(s: State, p: nat, log: seq<Event>, n: nat, m: nat) {
    && Ordered(log) && RowsFeed(s.rows, log, n)
    && Firsts(s.topic) == log[..n]
    && (forall q :: q in s.passes ==> q == p)
    && (p in s.passes ==> PassFeeds(s.passes[p], log, n, m))
  }

  lemma NotYetSeen(log: seq<Event>, e: Event)
    requires Ordered(log + [e])
    ensures !Seen(log, e.id)
  {
    forall k | 0 <= k < |log| ensures log[k].id != e.id { assert (log + [e])[k] == log[k] && (log + [e])[|log|] == e; }
  }

  lemma {:induction false} FeedSave(s: State, p: nat, log: seq<Event>, n: nat, m: nat, e: Event)
    requires Feeds(s, p, log, n, m) && Ordered(log + [e])
    ensures Feeds(Next(s, Save(e)), p, log + [e], n, m)
  {
    var log' := log + [e];
    NotYetSeen(log, e);
    assert log'[..n] == log[..n];
    assert p in s.passes ==> log'[..m] == log[..m];
    forall i | i in s.rows[e.id := Row(e, false)] ensures Seen(log', i) { SeenSnoc(log, e, i); }
  }

  lemma FeedFetch(s: State, p: nat, log: seq<Event>, n: nat, m: nat, events: seq<Event>)
    requires Feeds(s, p, log, n, m) && p !in s.passes && IsPending(s.rows, events)
    ensures Feeds(Next(s, Fetch(p, events)), p, log, n, |log|)
  {
    assert log[..|log|] == log;
    forall j | 0 <= j < |events| ensures events[j] in log {
      var k :| 0 <= k < |log| && log[k].id == events[j].id;
      assert log[k] == events[j];
    }
  }

  /** The head of the queue is a copy of a delivered event, or the very next one. */
  lemma HeadIsNext(pass: Pass, log: seq<Event>, n: nat, m: nat)
    requires Ordered(log) && PassFeeds(pass, log, n, m) && pass.queue != []
    ensures pass.queue[0].eventType != ""
    ensures pass.queue[0] in log[..n] || (n < m && pass.queue[0] == log[n])
  {
    var q := pass.queue;
    assert q[0] in log[..m];
    var k :| 0 <= k < m && log[k] == q[0];
    if n < m { NotAfter(q, log, n, k); }
    if k < n { assert log[..n][k] == q[0]; }
  }

  lemma NotAfter(q: seq<Event>, log: seq<Event>, n: nat, k: nat)
    requires Ordered(log) && Sorted(q) && n < |log| && k < |log| && q != [] && q[0] == log[k] && log[n] in q
    ensures k <= n
  {
    var j :| 0 <= j < |q| && q[j] == log[n];
    assert q[0].createdAt <= q[j].createdAt;
  }

  /** Publishing the head: a copy, or the next event of the log. */
  lemma {:induction false} TopicPublished(topic: seq<Event>, log: seq<Event>, n: nat, h: Event) returns (n': nat)
    requires Ordered(log) && n <= |log| && Firsts(topic) == log[..n]
    requires h in log[..n] || (n < |log| && h == log[n])
    ensures n' == (if h in log[..n] then n else n + 1) && n' <= |log|
    ensures Firsts(topic + [h]) == log[..n'] && h in log[..n']
  {
    FirstsSnoc(topic, h);
    FirstsSeen(topic, h.id);
    if h in log[..n] {
      n' := n;
      var k :| 0 <= k < n && log[k] == h;
      assert log[..n][k] == h;
    } else {
      n' := n + 1;
      assert log[..n + 1] == log[..n] + [h];
      assert !Seen(log[..n], h.id);
    }
  }

  lemma RowsAdvance(rows: map<string, Row>, log: seq<Event>, n: nat, n': nat)
    requires RowsFeed(rows, log, n) && n <= n' <= |log|
    ensures RowsFeed(rows, log, n')
  {
  }

  lemma PassPublished(pass: Pass, log: seq<Event>, n: nat, m: nat, n': nat)
    requires PassFeeds(pass, log, n, m) && pass.queue != [] && n <= n' <= m && pass.queue[0] in log[..n']
    ensures PassFeeds(pass.(marking := true), log, n', m)
  {
  }

  lemma {:induction false} FeedPublish(s: State, p: nat, log: seq<Event>, n: nat, m: nat) returns (n': nat)
    requires Feeds(s, p, log, n, m) && AtHead(s, p, false)
    ensures Feeds(Next(s, PublishOk(p)), p, log, n', m)
  {
    HeadIsNext(s.passes[p], log, n, m);
    n' := TopicPublished(s.topic, log, n, Head(s, p));
    RowsAdvance(s.rows, log, n, n');
    PassPublished(s.passes[p], log, n, m, n');
    var s' := Next(s, PublishOk(p));
    assert s' == s.(topic := s.topic + [Head(s, p)], passes := s.passes[p := s.passes[p].(marking := true)]);
  }

  lemma FeedDrop(pass: Pass, log: seq<Event>, n: nat, m: nat)
    requires Ordered(log) && PassFeeds(pass, log, n, m) && pass.marking
    ensures PassFeeds(Pass(pass.queue[1..], false), log, n, m)
  {
    var q := pass.queue;
    var h :| 0 <= h < n && log[h] == q[0];
    forall k | n <= k < m ensures log[k] in q[1..] {
      var j :| 0 <= j < |q| && q[j] == log[k];
      assert j != 0 && q[1..][j - 1] == log[k];
    }
  }

  lemma RowsMark(rows: map<string, Row>, log: seq<Event>, n: nat, h: nat)
    requires Ordered(log) && RowsFeed(rows, log, n) && h < n
    ensures RowsFeed(Mark(rows, log[h].id), log, n)
  {
  }

  lemma {:induction false} FeedMark(s: State, p: nat, log: seq<Event>, n: nat, m: nat, a: Action)
    requires Feeds(s, p, log, n, m) && AtHead(s, p, true) && (a == MarkOk(p) || (a.MarkError? && a.p == p))
    ensures Feeds(Next(s, a), p, log, n, m)
  {
    FeedDrop(s.passes[p], log, n, m);
    var h :| 0 <= h < n && log[h] == Head(s, p);
    RowsMark(s.rows, log, n, h);
  }

  lemma FeedNext(s: State, p: nat, log: seq<Event>, n: nat, m: nat, a: Action) returns (n': nat, m': nat)
    requires Feeds(s, p, log, n, m) && Delivers(p, a) && !a.Save?
    ensures Feeds(Next(s, a), p, log, n', m')
  {
    n', m' := n, m;
    match a
    case Fetch(_, events) =>
      if p !in s.passes && IsPending(s.rows, events) {
        FeedFetch(s, p, log, n, m, events);
        m' := |log|;
      }
    case PublishOk(_) =>
      if AtHead(s, p, false) && Head(s, p).eventType != "" { n' := FeedPublish(s, p, log, n, m); }
    case MarkOk(_) =>
      if AtHead(s, p, true) { FeedMark(s, p, log, n, m, a); }
    case MarkError(_, _) =>
      if AtHead(s, p, true) { FeedMark(s, p, log, n, m, a); }
    case SkipUntyped(_) =>
      if AtHead(s, p, false) { assert Head(s, p) in log[..m]; }
    case Finish(_) =>
  }

  // ---------------------------------------------------------------- runs

  lemma {:induction false} RunSnoc(s: State, actions: seq<Action>, a: Action)
    ensures Run(s, actions + [a]) == Next(Run(s, actions), a)
    decreases |actions|
  {
    if actions == [] {
      assert actions + [a] == [a];
      assert Run(Next(s, a), []) == Next(s, a);
    } else {
      assert (actions + [a])[1..] == actions[1..] + [a];
      RunSnoc(Next(s, actions[0]), actions[1..], a);
    }
  }

  lemma {:induction false} RunFeeds(p: nat, actions: seq<Action>) returns (n: nat, m: nat)
    requires Ordered(SavesOf(actions)) && forall k :: 0 <= k < |actions| ==> Delivers(p, actions[k])
    ensures Feeds(Run(INITIAL, actions), p, SavesOf(actions), n, m)
    decreases |actions|
  {
    if actions == [] {
      n, m := 0, 0;
    } else {
      var front, a := actions[..|actions| - 1], actions[|actions| - 1];
      assert actions == front + [a];
      RunSnoc(INITIAL, front, a);
      OrderedFront(SavesOf(front), SavesOf(actions));
      n, m := RunFeeds(p, front);
      if a.Save? {
        FeedSave(Run(INITIAL, front), p, SavesOf(front), n, m, a.event);
      } else {
        n, m := FeedNext(Run(INITIAL, front), p, SavesOf(front), n, m, a);
      }
    }
  }

  lemma OrderedFront(front: seq<Event>, events: seq<Event>)
    requires Ordered(events) && front <= events
    ensures Ordered(front)
  {
  }

  /** Nothing is left to publish. */
  predicate Drained(s: State) {
    forall i :: i in s.rows ==> s.rows[i].published
  }

  /** One publisher, whatever marks fail and wherever its passes are cut short: a reader who skips the ids it has seen
      reads a prefix of the saved events in the order they were saved, and all of them once the table is drained. */
  lemma {:induction false} DeliveredInOrder(p: nat, actions: seq<Action>)
    requires Ordered(SavesOf(actions)) && forall k :: 0 <= k < |actions| ==> Delivers(p, actions[k])
    ensures Firsts(Run(INITIAL, actions).topic) <= SavesOf(actions)
    ensures Drained(Run(INITIAL, actions)) ==> Firsts(Run(INITIAL, actions).topic) == SavesOf(actions)
  {
    var n, m := RunFeeds(p, actions);
    FeedsDelivered(Run(INITIAL, actions), p, SavesOf(actions), n, m);
  }

  lemma {:induction false} FeedsDelivered(s: State, p: nat, log: seq<Event>, n: nat, m: nat)
    requires Feeds(s, p, log, n, m)
    ensures Firsts(s.topic) <= log && (Drained(s) ==> Firsts(s.topic) == log)
  {
    if n < |log| { assert !s.rows[log[n].id].published; }
    assert log[..|log|] == log;
  }

  // ---------------------------------------------------------------- when the copies matter

  lemma {:induction false} FirstsOfDistinct(topic: seq<Event>)
    requires Distinct(topic)
    ensures Firsts(topic) == topic
    decreases |topic|
  {
    if topic != [] {
      FirstsOfDistinct(topic[..|topic| - 1]);
    }
  }

  lemma TwoPlaces(topic: seq<Event>, i: nat, j: nat)
    requires i < j < |topic| && topic[i] == topic[j]
    ensures multiset(topic)[topic[i]] >= 2
  {
    var front := topic[..j];
    assert topic == front + [topic[j]] + topic[j + 1..];
    assert front[i] in multiset(front);
    assert multiset(topic) == multiset(front) + multiset{topic[j]} + multiset(topic[j + 1..]);
  }

  /** An event that occurs once does so at one place. */
  lemma OnceMeansDistinct(topic: seq<Event>)
    requires forall e :: e in topic ==> multiset(topic)[e] <= 1
    requires forall j, k :: 0 <= j < |topic| && 0 <= k < |topic| && topic[j].id == topic[k].id ==> topic[j] == topic[k]
    ensures Distinct(topic)
  {
    forall i, j | 0 <= i < j < |topic| ensures topic[i].id != topic[j].id {
      if topic[i] == topic[j] { TwoPlaces(topic, i, j); }
    }
  }

  lemma DistinctMeansOnce(topic: seq<Event>, e: Event)
    requires Distinct(topic) && e in topic
    ensures multiset(topic)[e] == 1
  {
    var k :| 0 <= k < |topic| && topic[k] == e;
    assert topic == topic[..k] + [e] + topic[k + 1..];
    assert e !in topic[..k] && e !in topic[k + 1..];
    assert multiset(topic) == multiset(topic[..k]) + multiset{e} + multiset(topic[k + 1..]);
  }

  /** Between passes every event has been copied as often as its marks failed, and once more if it is marked. */
  predicate Counted(s: State) {
    && (forall i {:trigger s.rows[i]} :: i in s.rows ==>
          multiset(s.topic)[s.rows[i].event] == multiset(s.failedMarks)[i] + (if s.rows[i].published then 1 else 0))
    && (forall k :: 0 <= k < |s.failedMarks| ==> s.failedMarks[k] in s.rows)
  }

  lemma NoFailureNoCopies(s: State)
    requires Safe(s) && Counted(s) && Drained(s) && s.failedMarks == []
    ensures Distinct(s.topic)
  {
    forall e | e in s.topic ensures multiset(s.topic)[e] <= 1 {
      assert Saved(s, e);
      assert multiset(s.failedMarks)[e.id] == 0;
    }
    forall j, k | 0 <= j < |s.topic| && 0 <= k < |s.topic| && s.topic[j].id == s.topic[k].id
      ensures s.topic[j] == s.topic[k]
    {
      assert Saved(s, s.topic[j]) && Saved(s, s.topic[k]);
    }
    OnceMeansDistinct(s.topic);
  }

  lemma FailureMakesCopies(s: State)
    requires Safe(s) && Counted(s) && Drained(s) && s.failedMarks != []
    ensures !Distinct(s.topic)
  {
    var i := s.failedMarks[0];
    assert s.failedMarks == [i] + s.failedMarks[1..];
    assert multiset(s.failedMarks)[i] >= 1;
    assert multiset(s.topic)[s.rows[i].event] >= 2;
    if Distinct(s.topic) { DistinctMeansOnce(s.topic, s.rows[i].event); }
  }

  lemma {:induction false} CountedRun(p: nat, actions: seq<Action>)
    requires forall k :: 0 <= k < |actions| ==> SoleFaithful(p, actions[k])
    requires p !in Run(INITIAL, actions).passes
    ensures Safe(Run(INITIAL, actions)) && Counted(Run(INITIAL, actions))
  {
    CopiesAreFailedMarksPlusOne(INITIAL, p, actions);
  }

  /** Between passes, drained and with failed marks that mark nothing, the topic is exactly the saved events, each once
      and in order, if and only if no mark ever failed. */
  lemma {:induction false} TopicIsLogExactly(p: nat, actions: seq<Action>)
    requires Ordered(SavesOf(actions))
    requires forall k :: 0 <= k < |actions| ==> Delivers(p, actions[k]) && SoleFaithful(p, actions[k])
    requires Drained(Run(INITIAL, actions)) && p !in Run(INITIAL, actions).passes
    ensures Run(INITIAL, actions).topic == SavesOf(actions) <==> Run(INITIAL, actions).failedMarks == []
  {
    DeliveredInOrder(p, actions);
    CountedRun(p, actions);
    TopicExactly(Run(INITIAL, actions), SavesOf(actions));
  }

  lemma TopicExactly(s: State, log: seq<Event>)
    requires Safe(s) && Counted(s) && Drained(s) && Ordered(log) && Firsts(s.topic) == log
    ensures s.topic == log <==> s.failedMarks == []
  {
    if s.failedMarks == [] {
      NoFailureNoCopies(s);
      FirstsOfDistinct(s.topic);
    } else {
      FailureMakesCopies(s);
    }
  }
}
