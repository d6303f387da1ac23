/** From the card tables to a consumer of the topic: what is saved with the rows, published by the outbox publisher and
    folded by the consumer gives the rows back. */
module CardDelivery {
  import opened CardLedger
  import opened CardReplay
  import P = OutboxProtocol
  import D = OutboxDelivery

  /** How a consumer reads a message. */
  type Decoder = P.Event -> Event

  function Decoded(messages: seq<P.Event>, decode: Decoder): seq<Event> {
    seq(|messages|, k requires 0 <= k < |messages| => decode(messages[k]))
  }

  /** A consumer that skips the ids it has seen. */
  function Follow(topic: seq<P.Event>, decode: Decoder): View {
    if topic == [] then View(map[], map[])
    else
      var front, e := topic[..|topic| - 1], topic[|topic| - 1];
      if D.Seen(front, e.id) then Follow(front, decode) else Consume(Follow(front, decode), decode(e))
  }

  lemma {:induction false} FollowIsReplay(topic: seq<P.Event>, decode: Decoder)
    ensures Follow(topic, decode) == Replay(Decoded(D.Firsts(topic), decode))
    decreases |topic|
  {
    if topic != [] {
      var front, e := topic[..|topic| - 1], topic[|topic| - 1];
      FollowIsReplay(front, decode);
      if !D.Seen(front, e.id) {
        assert Decoded(D.Firsts(front) + [e], decode) == Decoded(D.Firsts(front), decode) + [decode(e)];
        ReplaySnoc(Decoded(D.Firsts(front), decode), decode(e));
      }
    }
  }

  /** The messages saved by a history of the outbox are the events of a history of the card service, in order. */
  predicate Carries(moves: seq<Move>, actions: seq<P.Action>, decode: Decoder) {
    D.Ordered(D.SavesOf(actions)) && Decoded(D.SavesOf(actions), decode) == Run(EMPTY_LEDGER, moves).outbox
  }

  /** The view after some first part of the events. */
  predicate HoldsFirstPart(v: View, events: seq<Event>) {
    exists n :: 0 <= n <= |events| && v == Replay(events[..n])
  }

  lemma FirstPart(v: View, events: seq<Event>, n: nat)
    requires n <= |events| && v == Replay(events[..n])
    ensures HoldsFirstPart(v, events)
  {
  }

  /** With one publisher whose publishes succeed, whatever marks fail, wherever passes are cut short and however saves
      interleave with them: a consumer that skips ids it has seen always holds the view of some first part of the
      outbox, and once the outbox is drained the view of the stored cards and invoices. */
  lemma {:induction false} ConsumerRebuilds(moves: seq<Move>, p: nat, actions: seq<P.Action>, decode: Decoder)
    requires Carries(moves, actions, decode) && forall k :: 0 <= k < |actions| ==> D.Delivers(p, actions[k])
    ensures
      var l, s := Run(EMPTY_LEDGER, moves), P.Run(P.INITIAL, actions);
      && HoldsFirstPart(Follow(s.topic, decode), l.outbox)
      && (D.Drained(s) ==> Follow(s.topic, decode) == ViewOf(l))
  {
    var l, s, saves := Run(EMPTY_LEDGER, moves), P.Run(P.INITIAL, actions), D.SavesOf(actions);
    D.DeliveredInOrder(p, actions);
    FollowIsReplay(s.topic, decode);
    var n := |D.Firsts(s.topic)|;
    assert Decoded(D.Firsts(s.topic), decode) == l.outbox[..n] by { assert D.Firsts(s.topic) == saves[..n]; }
    assert |Decoded(saves, decode)| == |saves| && n <= |saves|;
    FirstPart(Follow(s.topic, decode), l.outbox, n);
    if D.Drained(s) {
      assert n == |l.outbox| && l.outbox[..n] == l.outbox;
      ReplayFromEmpty(moves);
    }
  }

  /** A consumer that does not skip needs the topic to be the outbox, which between passes it is exactly when no mark
      ever failed; then it rebuilds the view too. */
  lemma {:induction false} PlainConsumerRebuilds(moves: seq<Move>, p: nat, actions: seq<P.Action>, decode: Decoder)
    requires Carries(moves, actions, decode)
    requires forall k :: 0 <= k < |actions| ==> D.Delivers(p, actions[k]) && P.SoleFaithful(p, actions[k])
    requires D.Drained(P.Run(P.INITIAL, actions)) && p !in P.Run(P.INITIAL, actions).passes
    ensures
      var l, s := Run(EMPTY_LEDGER, moves), P.Run(P.INITIAL, actions);
      && (s.topic == D.SavesOf(actions) <==> s.failedMarks == [])
      && (s.failedMarks == [] ==> Replay(Decoded(s.topic, decode)) == ViewOf(l))
  {
    D.TopicIsLogExactly(p, actions);
    ReplayFromEmpty(moves);
  }

  /** A transaction consumed a second time counts a second time, so a repeated copy of it is never harmless. */
  lemma SecondCopyCounts(v: View, e: Event)
    requires e.TransactionAdded? && e.amount != 0
    ensures
      var once, twice := Consume(v, e), Consume(Consume(v, e), e);
      && e.invoice in once.invoices && e.invoice in twice.invoices
      && twice.invoices[e.invoice].total == once.invoices[e.invoice].total + e.amount
      && twice != once
  {
  }

  /** A card update consumed a second time changes nothing, so not every failed mark shows. */
  lemma SecondUpdateIsHarmless(v: View, e: Event)
    requires e.CardUpdated?
    ensures Consume(Consume(v, e), e) == Consume(v, e)
  {
  }
}
