/** What idempotency keys and caches leave of a history of the card service: a history of its database. */
module CardRetry {
  import opened CardLedger
  import opened CardFrontend
  import Idempotency

  /** The database moves among some actions. */
  function Moves(actions: seq<Action>): seq<Move> {
    if actions == [] then []
    else
      var rest := Moves(actions[1..]);
      match actions[0]
      case Write(req, env) => [Call(req, env)] + rest
      case Outside(id, to) => [Transition(id, to)] + rest
      case _ => rest
  }

  lemma ServeDatabase(t: Tables, a: Action)
    ensures Serve(t, a).data.db
      == match a
         case Write(req, env) => Next(t.db, Call(req, env))
         case Outside(id, to) => Next(t.db, Transition(id, to))
         case _ => t.db
  {
    if a.Write? && Apply(t.db, a.req, a.env).result.Err? { FailureKeeps(t.db, a.req, a.env); }
  }

  /** A request that fails has changed nothing: its transaction was rolled back. */
  lemma FailureKeeps(l: Ledger, req: Request, env: Env)
    requires Apply(l, req, env).result.Err?
    ensures Apply(l, req, env).data == l
  {
  }

  lemma {:induction false} PlainRunsDatabase(t: Tables, actions: seq<Action>)
    ensures Idempotency.RunPlain(Serve, t, actions).db == Run(t.db, Moves(actions))
    decreases |actions|
  {
    if actions != [] {
      ServeDatabase(t, actions[0]);
      PlainRunsDatabase(Serve(t, actions[0]).data, actions[1..]);
      var moves := Moves(actions);
      if actions[0].Write? || actions[0].Outside? { assert moves[1..] == Moves(actions[1..]); }
    }
  }

  /** Every history of the whole service is a history of its database, so whatever holds of all database runs
      (conservation, replay, invoice rules) holds behind idempotency and caches too. */
  lemma ServiceRunsDatabase(s: State, steps: seq<Step>)
    ensures Idempotency.Run(Serve, s, steps).data.db == Run(s.data.db, Moves(Idempotency.Served(Serve, s, steps)))
  {
    Idempotency.HistoryIsPlain(Serve, s, steps);
    PlainRunsDatabase(s.data, Idempotency.Served(Serve, s, steps));
  }

  /** Retry equivalence: with a working key store the cards, invoices, transactions and outbox after any serial history
      are those of the history without the repeated requests, run on a database that has no idempotency at all. */
  lemma RetryEquivalence(s: State, steps: seq<Step>)
    requires Idempotency.AllRemember(steps)
    ensures Idempotency.Run(Serve, s, steps).data.db
      == Run(s.data.db, Moves(Idempotency.Prune(Serve, s.data, s.responses.Keys, steps)))
  {
    Idempotency.RetryEquivalence(Serve, s, steps);
    PlainRunsDatabase(s.data, Idempotency.Prune(Serve, s.data, s.responses.Keys, steps));
  }

  /** Deletes carry no key: repeating one writes its event again, although no row changes the second time. */
  lemma DeleteNotDeduplicated(t: Tables, req: Request, env: Env, env': Env)
    requires req.DeleteCreditCard? && !Refused(env, 3) && !Refused(env', 3)
    ensures
      var once := ServeWrite(t, req, env).data;
      var twice := ServeWrite(once, req, env').data.db;
      once.db.outbox == t.db.outbox + [CardDeleted(req.id, req.user)]
      && twice == once.db.(outbox := once.db.outbox + [CardDeleted(req.id, req.user)])
  {
    var once := ApplyDeleteCard(t.db, req, env).data;
    assert FindCard(once, req.id, req.user).None?;
  }
}
