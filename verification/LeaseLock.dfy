/** The Redis-backed idempotency store and lease lock (pkg/idempotency). */
module LeaseLock {
  import opened Common

  /** A key with its value; without a deadline it never expires. */
  datatype Entry = Entry(value: string, deadline: Option<int>)

  datatype Redis = Redis(now: int, data: map<string, Entry>)

  predicate Unexpired(now: int, deadline: Option<int>) {
    deadline.None? || now < deadline.value
  }

  predicate Live(r: Redis, key: string) {
    key in r.data && Unexpired(r.now, r.data[key].deadline)
  }

  /** Redis reads a zero expiration as none. */
  function Deadline(now: int, ttl: nat): Option<int> {
    if ttl == 0 then None else Some(now + ttl)
  }

  /** SET key value NX EX ttl. */
  function SetNX(r: Redis, key: string, value: string, ttl: nat): Redis {
    if Live(r, key) then r else r.(data := r.data[key := Entry(value, Deadline(r.now, ttl))])
  }

  /** The unlock script: delete the key if it holds this value. */
  function CompareAndDelete(r: Redis, key: string, value: string): Redis {
    if Live(r, key) && r.data[key].value == value then r.(data := r.data - {key}) else r
  }

  function LockName(key: string): string {
    "lock:" + key
  }

  datatype StoreError = NotFound | AlreadyExists

  /** What a read of the key yields. */
  function Lookup(r: Redis, key: string): Result<string, StoreError> {
    if Live(r, key) then Ok(r.data[key].value) else Err(NotFound)
  }

  /** The client of the store. Values are what JSON encoding produced. */
  class Store {
    var redis: Redis

    constructor (now: int)
      ensures redis == Redis(now, map[])
    {
      redis := Redis(now, map[]);
    }

    method Get(key: string) returns (r: Result<string, StoreError>)
      ensures r == Lookup(redis, key)
    {
      if !Live(redis, key) { return Err(NotFound); }
      return Ok(redis.data[key].value);
    }

    /** Store keeps the first value written under a key while it lives. */
    method Put(key: string, value: string, ttl: nat) returns (err: Option<StoreError>)
      modifies this
      ensures redis == SetNX(old(redis), key, value, ttl)
      ensures err == None <==> !Live(old(redis), key)
      ensures err.Some? ==> err.value == AlreadyExists && redis == old(redis)
    {
      if Live(redis, key) { return Some(AlreadyExists); }
      redis := redis.(data := redis.data[key := Entry(value, Deadline(redis.now, ttl))]);
      return None;
    }

    method Lock(key: string, token: string, ttl: nat) returns (r: Result<string, StoreError>)
      modifies this
      ensures redis == SetNX(old(redis), LockName(key), token, ttl)
      ensures r == if Live(old(redis), LockName(key)) then Err(AlreadyExists) else Ok(token)
    {
      var err := Put(LockName(key), token, ttl);
      if err.Some? { return Err(err.value); }
      return Ok(token);
    }

    method Unlock(key: string, token: string)
      modifies this
      ensures redis == CompareAndDelete(old(redis), LockName(key), token)
    {
      var name := LockName(key);
      if Live(redis, name) && redis.data[name].value == token {
        redis := redis.(data := redis.data - {name});
      }
    }
  }

  // ---------------------------------------------------------------- the protocol

  /** A lock a client was given. `deadline` is when its lease ends, `released` whether it has called Unlock. */
  datatype Lease = Lease(client: string, key: string, deadline: Option<int>, released: bool)

  /** `used` holds every token and value ever written; tokens are fresh UUIDs. */
  datatype State = State(redis: Redis, leases: map<string, Lease>, used: set<string>)

  /** A request can fail and still have been executed: `reported` says whether the client saw the success, `ran`
      whether the script ran. */
  datatype Action =
    | Acquire(client: string, key: string, token: string, ttl: nat, reported: bool)
    | Release(token: string, ran: bool)
    | PutValue(key: string, value: string, ttl: nat)
    | Tick(elapsed: nat)

  function Next(s: State, a: Action): State {
    match a
    case Acquire(client, key, token, ttl, reported) =>
      if token in s.used || Live(s.redis, LockName(key)) then s
      else
        State(SetNX(s.redis, LockName(key), token, ttl),
              if reported then s.leases[token := Lease(client, key, Deadline(s.redis.now, ttl), false)] else s.leases,
              s.used + {token})
    case Release(token, ran) =>
      if token !in s.leases then s
      else
        s.(redis := if ran then CompareAndDelete(s.redis, LockName(s.leases[token].key), token) else s.redis,
           leases := s.leases[token := s.leases[token].(released := true)])
    case PutValue(key, value, ttl) =>
      if value in s.leases then s  // encoded JSON is never a bare token
      else s.(redis := SetNX(s.redis, key, value, ttl), used := s.used + {value})
    case Tick(elapsed) => s.(redis := s.redis.(now := s.redis.now + elapsed))
  }

  function Run(s: State, actions: seq<Action>): State
    decreases |actions|
  {
    if actions == [] then s else Run(Next(s, actions[0]), actions[1..])
  }

  const INITIAL := State(Redis(0, map[]), map[], {})

  /** The client has the lock, has not given it back, and its lease has not run out. */
  predicate Holds(s: State, token: string) {
    token in s.leases && !s.leases[token].released && Unexpired(s.redis.now, s.leases[token].deadline)
  }

  /** A held lease is backed by its own key, and a key that carries a lease's token has that lease's deadline. */
  predicate LeaseOk(s: State, token: string)
    requires token in s.leases
  {
    && token in s.used
    && (Holds(s, token) ==>
          var name := LockName(s.leases[token].key);
          Live(s.redis, name) && s.redis.data[name].value == token)
  }

  predicate EntryOk(s: State, key: string)
    requires key in s.redis.data
  {
    var e := s.redis.data[key];
    && e.value in s.used
    && (e.value in s.leases ==>
          key == LockName(s.leases[e.value].key) && e.deadline == s.leases[e.value].deadline)
  }

  predicate Inv(s: State) {
    && (forall t :: t in s.leases ==> LeaseOk(s, t))
    && (forall k :: k in s.redis.data ==> EntryOk(s, k))
  }

  lemma NextKeeps(s: State, a: Action)
    requires Inv(s)
    ensures Inv(Next(s, a))
  {
    var s' := Next(s, a);
    forall k | k in s'.redis.data ensures EntryOk(s', k) {
      if k in s.redis.data { assert EntryOk(s, k); }
    }
    forall t | t in s'.leases ensures LeaseOk(s', t) {
      if t in s.leases {
        assert LeaseOk(s, t);
        if Holds(s', t) { HeldSurvives(s, a, t); }
      }
    }
  }

  lemma HeldSurvives(s: State, a: Action, t: string)
    requires Inv(s) && t in s.leases && Holds(Next(s, a), t)
    ensures Holds(s, t)
    ensures
      var s', name := Next(s, a), LockName(s.leases[t].key);
      s'.leases[t] == s.leases[t] && Live(s'.redis, name) && s'.redis.data[name] == s.redis.data[name]
  {
    assert LeaseOk(s, t);
    var name := LockName(s.leases[t].key);
    assert Holds(s, t);
    assert EntryOk(s, name);
  }

  lemma {:induction false} RunKeeps(s: State, actions: seq<Action>)
    requires Inv(s)
    ensures Inv(Run(s, actions))
    decreases |actions|
  {
    if actions != [] {
      NextKeeps(s, actions[0]);
      RunKeeps(Next(s, actions[0]), actions[1..]);
    }
  }

  /** In every interleaving at most one client holds an unexpired lease on a key. */
  lemma MutualExclusion(actions: seq<Action>, t1: string, t2: string)
    requires
      var s := Run(INITIAL, actions);
      Holds(s, t1) && Holds(s, t2) && s.leases[t1].key == s.leases[t2].key
    ensures t1 == t2
  {
    RunKeeps(INITIAL, actions);
    var s := Run(INITIAL, actions);
    assert LeaseOk(s, t1) && LeaseOk(s, t2);
  }

  /** The keys that have not expired, with their values. */
  function LiveData(r: Redis): map<string, Entry> {
    map k | k in r.data && Unexpired(r.now, r.data[k].deadline) :: r.data[k]
  }

  /** An Unlock by a client whose lease has run out removes nobody's lock: no live key changes at all, whoever
      holds what by then. */
  lemma StaleUnlockHarmless(actions: seq<Action>, token: string, ran: bool)
    requires token in Run(INITIAL, actions).leases
    requires
      var s := Run(INITIAL, actions);
      !Unexpired(s.redis.now, s.leases[token].deadline)
    ensures
      var s := Run(INITIAL, actions);
      var s' := Next(s, Release(token, ran));
      && LiveData(s'.redis) == LiveData(s.redis)
      && (forall t :: Holds(s, t) ==> Holds(s', t))
  {
    RunKeeps(INITIAL, actions);
    var s := Run(INITIAL, actions);
    var name := LockName(s.leases[token].key);
    if Live(s.redis, name) { assert EntryOk(s, name); }
  }

  /** An Unlock by the holder frees the key for the next client at once. */
  lemma UnlockFrees(actions: seq<Action>, token: string)
    requires Holds(Run(INITIAL, actions), token)
    ensures
      var s := Run(INITIAL, actions);
      !Live(Next(s, Release(token, true)).redis, LockName(s.leases[token].key))
  {
    RunKeeps(INITIAL, actions);
    assert LeaseOk(Run(INITIAL, actions), token);
  }

  // ---------------------------------------------------------------- what a reader sees

  lemma {:induction false} TimeNeverRunsBack(s: State, actions: seq<Action>)
    ensures s.redis.now <= Run(s, actions).redis.now
    decreases |actions|
  {
    if actions != [] { TimeNeverRunsBack(Next(s, actions[0]), actions[1..]); }
  }

  /** An entry whose value was written and is nobody's token outlives every action until its deadline. */
  lemma {:induction false} EntryStays(s: State, actions: seq<Action>, key: string)
    requires key in s.redis.data && s.redis.data[key].value in s.used && s.redis.data[key].value !in s.leases
    requires Unexpired(Run(s, actions).redis.now, s.redis.data[key].deadline)
    ensures Live(Run(s, actions).redis, key) && Run(s, actions).redis.data[key] == s.redis.data[key]
    decreases |actions|
  {
    TimeNeverRunsBack(s, actions);
    if actions != [] { EntryStays(Next(s, actions[0]), actions[1..], key); }
  }

  /** The first value stored under a key is what every read returns and what refuses every other store until `ttl` has
      passed, whatever is stored, locked, unlocked or expires meanwhile; with a ttl of zero, for ever. A response
      remembered under an idempotency key is such a value. */
  lemma FirstValueStays(before: seq<Action>, key: string, value: string, ttl: nat, after: seq<Action>)
    requires
      var s := Run(INITIAL, before);
      !Live(s.redis, key) && value !in s.leases
    requires
      var s := Run(INITIAL, before);
      ttl == 0 || Run(Next(s, PutValue(key, value, ttl)), after).redis.now < s.redis.now + ttl
    ensures
      var end := Run(Next(Run(INITIAL, before), PutValue(key, value, ttl)), after).redis;
      && Lookup(end, key) == Ok(value)
      && forall other: string, t: nat :: SetNX(end, key, other, t) == end
  {
    EntryStays(Next(Run(INITIAL, before), PutValue(key, value, ttl)), after, key);
  }

  /** An action that can write the key. */
  predicate Writes(a: Action, key: string) {
    (a.PutValue? && a.key == key) || (a.Acquire? && LockName(a.key) == key)
  }

  lemma {:induction false} EntryOnlyGoes(s: State, actions: seq<Action>, key: string)
    requires forall k :: 0 <= k < |actions| ==> !Writes(actions[k], key)
    ensures
      var end := Run(s, actions);
      key in end.redis.data ==> key in s.redis.data && end.redis.data[key] == s.redis.data[key]
    decreases |actions|
  {
    if actions != [] {
      assert !Writes(actions[0], key);
      forall k | 0 <= k < |actions[1..]| ensures !Writes(actions[1..][k], key) {
        assert actions[1..][k] == actions[k + 1];
      }
      EntryOnlyGoes(Next(s, actions[0]), actions[1..], key);
    }
  }

  /** Once `ttl` has passed the value is gone, unless somebody writes the key again. */
  lemma {:induction false} ValueExpires(s: State, key: string, value: string, ttl: nat, after: seq<Action>)
    requires !Live(s.redis, key) && value !in s.leases && ttl > 0
    requires forall k :: 0 <= k < |after| ==> !Writes(after[k], key)
    requires Run(Next(s, PutValue(key, value, ttl)), after).redis.now >= s.redis.now + ttl
    ensures Lookup(Run(Next(s, PutValue(key, value, ttl)), after).redis, key) == Err(NotFound)
  {
    EntryOnlyGoes(Next(s, PutValue(key, value, ttl)), after, key);
  }

  lemma {:induction false} LeaseStays(s: State, actions: seq<Action>, token: string)
    requires token in s.leases && token in s.used
    requires forall k :: 0 <= k < |actions| ==> !(actions[k].Release? && actions[k].token == token)
    ensures token in Run(s, actions).leases && Run(s, actions).leases[token] == s.leases[token]
    decreases |actions|
  {
    if actions != [] {
      assert !(actions[0].Release? && actions[0].token == token);
      forall k | 0 <= k < |actions[1..]| ensures !(actions[1..][k].Release? && actions[1..][k].token == token) {
        assert actions[1..][k] == actions[k + 1];
      }
      LeaseStays(Next(s, actions[0]), actions[1..], token);
    }
  }

  /** A client that was given the lock and does not give it back holds it exactly until `ttl` has passed. */
  lemma {:induction false} LeaseLastsExactly(s: State, client: string, key: string, token: string, ttl: nat,
                                             after: seq<Action>)
    requires token !in s.used && !Live(s.redis, LockName(key))
    requires forall k :: 0 <= k < |after| ==> !(after[k].Release? && after[k].token == token)
    ensures
      var end := Run(Next(s, Acquire(client, key, token, ttl, true)), after);
      Holds(end, token) <==> ttl == 0 || end.redis.now < s.redis.now + ttl
  {
    LeaseStays(Next(s, Acquire(client, key, token, ttl, true)), after, token);
  }

  /** Locks live under names of their own: locking and unlocking never touch a key without the prefix. */
  lemma LocksLeaveValues(s: State, a: Action, key: string)
    requires (a.Acquire? || a.Release?) && !("lock:" <= key)
    ensures Lookup(Next(s, a).redis, key) == Lookup(s.redis, key)
  {
  }
}
