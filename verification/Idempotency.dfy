/** Idempotency keys around any service: the first successful response under a key is stored and answers every later
    request with that key. `serve` is the service without keys, a step on its data. */
module Idempotency {
  import opened Common

  /** A request with its key, "" for none, and whether the key store answers the read before it and takes the response
      after it. */
  datatype Keyed<Q> = Keyed(key: string, request: Q, readable: bool, writable: bool)

  datatype Store<D, R> = Store(data: D, responses: map<string, R>)

  datatype Answer<D, R, E> = Answer(store: Store<D, R>, result: Result<R, E>)

  predicate Known<D, Q, R>(s: Store<D, R>, c: Keyed<Q>) {
    c.key != "" && c.readable && c.key in s.responses
  }

  /** After the service has run: a success is remembered, unless the key already has a response. */
  function Settle<D, Q, R, E>(s: Store<D, R>, c: Keyed<Q>, out: Outcome<D, R, E>): Answer<D, R, E> {
    var responses :=
      if out.result.Ok? && c.key != "" && c.writable && c.key !in s.responses
      then s.responses[c.key := out.result.value] else s.responses;
    Answer(Store(out.data, responses), out.result)
  }

  function Handle<D, Q, R, E>(serve: (D, Q) -> Outcome<D, R, E>, s: Store<D, R>, c: Keyed<Q>): Answer<D, R, E> {
    if Known(s, c) then Answer(s, Ok(s.responses[c.key])) else Settle(s, c, serve(s.data, c.request))
  }

  datatype Step<Q> = Call(call: Keyed<Q>) | Expire(key: string)

  function Advance<D, Q, R, E>(serve: (D, Q) -> Outcome<D, R, E>, s: Store<D, R>, step: Step<Q>): Store<D, R> {
    match step
    case Call(c) => Handle(serve, s, c).store
    case Expire(key) => s.(responses := s.responses - {key})
  }

  function Run<D, Q, R, E>(serve: (D, Q) -> Outcome<D, R, E>, s: Store<D, R>, steps: seq<Step<Q>>): Store<D, R>
    decreases |steps|
  {
    if steps == [] then s else Run(serve, Advance(serve, s, steps[0]), steps[1..])
  }

  /** The service without keys. */
  function RunPlain<D, Q, R, E>(serve: (D, Q) -> Outcome<D, R, E>, d: D, requests: seq<Q>): D
    decreases |requests|
  {
    if requests == [] then d else RunPlain(serve, serve(d, requests[0]).data, requests[1..])
  }

  lemma RunPlainCons<D, Q, R, E>(serve: (D, Q) -> Outcome<D, R, E>, d: D, q: Q, rest: seq<Q>)
    ensures RunPlain(serve, d, [q] + rest) == RunPlain(serve, serve(d, q).data, rest)
  {
    assert ([q] + rest)[1..] == rest;
  }

  // ---------------------------------------------------------------- any history

  /** The requests of a history that reached the service. */
  function Served<D, Q, R, E>(serve: (D, Q) -> Outcome<D, R, E>, s: Store<D, R>, steps: seq<Step<Q>>): seq<Q>
    decreases |steps|
  {
    if steps == [] then []
    else
      var rest := Served(serve, Advance(serve, s, steps[0]), steps[1..]);
      if steps[0].Call? && !Known(s, steps[0].call) then [steps[0].call.request] + rest else rest
  }

  /** Whatever the key store does or forgets, a history with keys is a history without: what holds after every plain run
      holds behind the keys too. */
  lemma {:induction false} HistoryIsPlain<D, Q, R, E>(serve: (D, Q) -> Outcome<D, R, E>, s: Store<D, R>,
                                                      steps: seq<Step<Q>>)
    ensures Run(serve, s, steps).data == RunPlain(serve, s.data, Served(serve, s, steps))
    decreases |steps|
  {
    if steps != [] {
      var s' := Advance(serve, s, steps[0]);
      HistoryIsPlain(serve, s', steps[1..]);
      if steps[0].Call? && !Known(s, steps[0].call) {
        RunPlainCons(serve, s.data, steps[0].call.request, Served(serve, s', steps[1..]));
      }
    }
  }

  lemma {:induction false} ServedAll<D, Q, R, E>(serve: (D, Q) -> Outcome<D, R, E>, s: Store<D, R>, steps: seq<Step<Q>>,
                                                 good: Q -> bool)
    requires forall k :: 0 <= k < |steps| && steps[k].Call? ==> good(steps[k].call.request)
    ensures forall q :: q in Served(serve, s, steps) ==> good(q)
    decreases |steps|
  {
    if steps != [] {
      forall k | 0 <= k < |steps[1..]| && steps[1..][k].Call? ensures good(steps[1..][k].call.request) {
        assert steps[1..][k] == steps[k + 1];
      }
      ServedAll(serve, Advance(serve, s, steps[0]), steps[1..], good);
    }
  }

  // ---------------------------------------------------------------- histories in which the key store works

  predicate Remembers<Q>(step: Step<Q>) {
    step.Call? && step.call.readable && step.call.writable
  }

  predicate AllRemember<Q>(steps: seq<Step<Q>>) {
    forall k :: 0 <= k < |steps| ==> Remembers(steps[k])
  }

  lemma AllRememberRest<Q>(steps: seq<Step<Q>>)
    requires AllRemember(steps) && steps != []
    ensures Remembers(steps[0]) && AllRemember(steps[1..])
  {
    forall k | 0 <= k < |steps[1..]| ensures Remembers(steps[1..][k]) { assert steps[1..][k] == steps[k + 1]; }
  }

  /** The requests of a history without those whose key already succeeded. `done` is the set of keys that succeeded so
      far; whether a request succeeds is judged by the plain service, which knows nothing of keys. */
  function Prune<D, Q, R, E>(serve: (D, Q) -> Outcome<D, R, E>, d: D, done: set<string>, steps: seq<Step<Q>>): seq<Q>
    decreases |steps|
  {
    if steps == [] || steps[0].Expire? then []
    else
      var c := steps[0].call;
      if c.key != "" && c.key in done then Prune(serve, d, done, steps[1..])
      else
        var out := serve(d, c.request);
        var done' := if out.result.Ok? && c.key != "" then done + {c.key} else done;
        [c.request] + Prune(serve, out.data, done', steps[1..])
  }

  /** Retry equivalence: the data after a history is that of the history without its repeated requests, run on the plain
      service. */
  lemma {:induction false} RetryEquivalence<D, Q, R, E>(serve: (D, Q) -> Outcome<D, R, E>, s: Store<D, R>,
                                                        steps: seq<Step<Q>>)
    requires AllRemember(steps)
    ensures Run(serve, s, steps).data == RunPlain(serve, s.data, Prune(serve, s.data, s.responses.Keys, steps))
    decreases |steps|
  {
    if steps != [] {
      AllRememberRest(steps);
      var c, s' := steps[0].call, Advance(serve, s, steps[0]);
      RetryEquivalence(serve, s', steps[1..]);
      if !Known(s, c) {
        var out := serve(s.data, c.request);
        assert s'.responses.Keys
            == if out.result.Ok? && c.key != "" then s.responses.Keys + {c.key} else s.responses.Keys;
        RunPlainCons(serve, s.data, c.request, Prune(serve, s'.data, s'.responses.Keys, steps[1..]));
      }
    }
  }

  /** Responses are never overwritten, and lost only by expiring. */
  lemma {:induction false} ResponseKept<D, Q, R, E>(serve: (D, Q) -> Outcome<D, R, E>, s: Store<D, R>,
                                                    steps: seq<Step<Q>>, key: string)
    requires key in s.responses && forall k :: 0 <= k < |steps| ==> steps[k] != Expire(key)
    ensures key in Run(serve, s, steps).responses && Run(serve, s, steps).responses[key] == s.responses[key]
    decreases |steps|
  {
    if steps != [] {
      forall k | 0 <= k < |steps[1..]| ensures steps[1..][k] != Expire(key) { assert steps[1..][k] == steps[k + 1]; }
      assert steps[0] != Expire(key);
      ResponseKept(serve, Advance(serve, s, steps[0]), steps[1..], key);
    }
  }

  /** A request that succeeded under a key, then anything but the key expiring, then any request under that key: the
      second one gets the first one's response and changes nothing. */
  lemma RetryReturnsFirstResponse<D, Q, R, E>(serve: (D, Q) -> Outcome<D, R, E>, s: Store<D, R>, first: Keyed<Q>,
                                              between: seq<Step<Q>>, again: Keyed<Q>)
    requires first.key != "" && first.readable && first.writable && again.key == first.key && again.readable
    requires forall k :: 0 <= k < |between| ==> between[k] != Expire(first.key)
    requires Handle(serve, s, first).result.Ok?
    ensures
      var later := Run(serve, Handle(serve, s, first).store, between);
      Handle(serve, later, again) == Answer(later, Handle(serve, s, first).result)
  {
    ResponseKept(serve, Handle(serve, s, first).store, between, first.key);
  }
}
