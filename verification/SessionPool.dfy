/**
 * The pool of upstream sessions (packages/federation/src/upstream-sessions.ts).
 * Attempts, closings and the loops that drain the pool interleave at every await;
 * an attempt's number doubles as its token.
 */
module SessionPool {
  import opened Wrappers

  datatype Key = Key(connection: string, downstream: string)

  type AttemptId = nat
  type ClientId = nat

  /** `close()` has not been called, is under way, or has completed. */
  datatype Health = Open | Closing | Closed

  datatype Client = Client(owner: AttemptId, health: Health, lastUsed: int)

  datatype Stage =
    | Loading     // reading the server record
    | Connecting  // initialize() in flight
    | Failing     // closing the client of a failed or unwanted attempt
    | Persisting  // the token was checked, the record is being written
    | Settled     // the promise is settled, `finally` has still to run
    | Done

  /** `cancelled`: the token was dropped before it was checked. */
  datatype Attempt = Attempt(key: Key, stage: Stage, client: Option<ClientId>, cancelled: bool)

  datatype Scope =
    | OfDownstream(downstream: string)
    | OfConnection(connection: string)
    | Everything
    | Idle(now: int, idleMs: int)  // sweep

  /** A loop over a copy of the entries, waiting for one close at a time. */
  datatype Drain = Drain(scope: Scope, rest: seq<(Key, ClientId)>, waiting: Option<ClientId>)

  datatype State = State(
    entries: map<Key, ClientId>, openings: map<Key, AttemptId>,
    attempts: seq<Attempt>, clients: seq<Client>, drains: seq<Drain>)

  datatype Step =
    | Acquire(key: Key, now: int)
    | ServerMissing(attempt: AttemptId)
    | Build(attempt: AttemptId, now: int)
    | InitFails(attempt: AttemptId)
    | InitSucceeds(attempt: AttemptId)           // and the token is checked
    | FailureClosed(attempt: AttemptId)
    | Persisted(attempt: AttemptId, now: int)    // and the entry is set
    | PersistFails(attempt: AttemptId)
    | Finally(attempt: AttemptId)
    | Release(key: Key)
    | StartDrain(scope: Scope, order: seq<Key>)  // `order`: the entries map's own order
    | DrainNext(drain: nat)
    | DrainResume(drain: nat)
    | CloseCompletes(client: ClientId)

  const Initial := State(map[], map[], [], [], [])

  predicate Matches(scope: Scope, key: Key) {
    match scope
    case OfDownstream(d) => key.downstream == d
    case OfConnection(c) => key.connection == c
    case Everything => true
    case Idle(_, _) => true
  }

  predicate Stands(s: State, a: AttemptId, stage: Stage) {
    a < |s.attempts| && s.attempts[a].stage == stage
  }

  predicate HasClient(s: State, a: AttemptId) {
    a < |s.attempts| && s.attempts[a].client.Some? && s.attempts[a].client.value < |s.clients|
  }

  predicate Enabled(s: State, step: Step) {
    match step
    case Acquire(key, _) => key in s.entries ==> s.entries[key] < |s.clients|
    case ServerMissing(a) => Stands(s, a, Loading)
    case Build(a, _) => Stands(s, a, Loading)
    case InitFails(a) => Stands(s, a, Connecting) && HasClient(s, a)
    case InitSucceeds(a) => Stands(s, a, Connecting) && HasClient(s, a)
    case FailureClosed(a) =>
      Stands(s, a, Failing) && HasClient(s, a) && s.clients[s.attempts[a].client.value].health.Closed?
    case Persisted(a, _) => Stands(s, a, Persisting) && HasClient(s, a)
    case PersistFails(a) => Stands(s, a, Persisting) && HasClient(s, a)
    case Finally(a) => Stands(s, a, Settled)
    case Release(key) => key in s.entries ==> s.entries[key] < |s.clients|
    case StartDrain(scope, order) =>
      && (forall k :: k in order ==> k in s.entries && Matches(scope, k))
      && (forall k :: k in s.entries && Matches(scope, k) ==> k in order)
      && (forall m, n :: 0 <= m < n < |order| ==> order[m] != order[n])
    case DrainNext(d) =>
      && d < |s.drains| && s.drains[d].waiting.None? && s.drains[d].rest != []
      && s.drains[d].rest[0].1 < |s.clients|
    case DrainResume(d) =>
      && d < |s.drains| && s.drains[d].waiting.Some? && s.drains[d].waiting.value < |s.clients|
      && s.clients[s.drains[d].waiting.value].health.Closed?
    case CloseCompletes(c) => c < |s.clients| && s.clients[c].health.Closing?
  }

  function AtStage(s: State, a: AttemptId, stage: Stage): State
    requires a < |s.attempts|
  {
    s.(attempts := s.attempts[a := s.attempts[a].(stage := stage)])
  }

  /** Calls `close()`; a client already closing or closed stays as it is. */
  function CloseClient(s: State, c: ClientId): State
    requires c < |s.clients|
  {
    if s.clients[c].health.Open? then s.(clients := s.clients[c := s.clients[c].(health := Closing)]) else s
  }

  predicate Cancellable(attempt: Attempt) {
    attempt.stage.Loading? || attempt.stage.Connecting?
  }

  /** Drops the tokens of `keys`; an attempt that still has to check its token is cancelled by it. */
  function Cancel(s: State, keys: set<Key>): (r: State)
    ensures |r.attempts| == |s.attempts|
  {
    s.(openings := s.openings - keys,
       attempts := seq(|s.attempts|, a requires 0 <= a < |s.attempts| =>
         var x := s.attempts[a];
         if x.key in keys && x.key in s.openings && s.openings[x.key] == a && Cancellable(x)
         then x.(cancelled := true) else x))
  }

  function Snapshot(s: State, order: seq<Key>): (r: seq<(Key, ClientId)>)
    requires forall k :: k in order ==> k in s.entries
    ensures |r| == |order|
  {
    seq(|order|, n requires 0 <= n < |order| => (order[n], s.entries[order[n]]))
  }

  predicate Skips(s: State, d: nat)
    requires Enabled(s, DrainNext(d))
  {
    var scope := s.drains[d].scope;
    scope.Idle? && scope.now - s.clients[s.drains[d].rest[0].1].lastUsed <= scope.idleMs
  }

  function Apply(s: State, step: Step): State
    requires Enabled(s, step)
  {
    match step
    case Acquire(key, now) =>
      if key in s.entries then
        s.(clients := s.clients[s.entries[key] := s.clients[s.entries[key]].(lastUsed := now)])
      else if key in s.openings then s
      else s.(attempts := s.attempts + [Attempt(key, Loading, None, false)],
              openings := s.openings[key := |s.attempts|])
    case ServerMissing(a) => AtStage(s, a, Settled)
    case Build(a, now) =>
      s.(attempts := s.attempts[a := s.attempts[a].(stage := Connecting, client := Some(|s.clients|))],
         clients := s.clients + [Client(a, Open, now)])
    case InitFails(a) => AtStage(CloseClient(s, s.attempts[a].client.value), a, Failing)
    case InitSucceeds(a) =>
      var key := s.attempts[a].key;
      if key in s.openings && s.openings[key] == a then AtStage(s, a, Persisting)
      else AtStage(CloseClient(s, s.attempts[a].client.value), a, Failing)
    case FailureClosed(a) => AtStage(s, a, Settled)
    case Persisted(a, now) =>
      var c := s.attempts[a].client.value;
      AtStage(s, a, Settled)
        .(entries := s.entries[s.attempts[a].key := c], clients := s.clients[c := s.clients[c].(lastUsed := now)])
    case PersistFails(a) => AtStage(s, a, Settled)
    case Finally(a) =>
      var key := s.attempts[a].key;
      AtStage(s, a, Done)
        .(openings := if key in s.openings && s.openings[key] == a then s.openings - {key} else s.openings)
    case Release(key) =>
      var t := Cancel(s, {key});
      if key in s.entries then CloseClient(t, s.entries[key]).(entries := s.entries - {key}) else t
    case StartDrain(scope, order) =>
      var t := if scope.Idle? then s else Cancel(s, set k | k in s.openings && Matches(scope, k));
      t.(drains := s.drains + [Drain(scope, Snapshot(s, order), None)])
    case DrainNext(d) =>
      var drain := s.drains[d];
      var (key, c) := drain.rest[0];
      if Skips(s, d) then s.(drains := s.drains[d := drain.(rest := drain.rest[1..])])
      else CloseClient(s, c)
             .(entries := s.entries - {key},
               drains := s.drains[d := Drain(drain.scope, drain.rest[1..], Some(c))])
    case DrainResume(d) => s.(drains := s.drains[d := s.drains[d].(waiting := None)])
    case CloseCompletes(c) => s.(clients := s.clients[c := s.clients[c].(health := Closed)])
  }

  // ----- where every client is -------------------------------------------------------

  /** An attempt still holds the client it built. */
  ghost predicate Held(s: State, c: ClientId)
    requires c < |s.clients|
  {
    var a := s.clients[c].owner;
    a < |s.attempts| && s.attempts[a].client == Some(c) && (s.attempts[a].stage.Connecting? || s.attempts[a].stage.Persisting?)
  }

  ghost predicate Live(s: State, c: ClientId) {
    exists k :: k in s.entries && s.entries[k] == c
  }

  /** Every client is in exactly one place: connecting, live, or closed (or closing). */
  ghost predicate Accounted(s: State, c: ClientId)
    requires c < |s.clients|
  {
    if s.clients[c].health.Open? then Held(s, c) <==> !Live(s, c)
    else !Held(s, c) && !Live(s, c)
  }

  ghost predicate AllAccounted(s: State) {
    forall c :: 0 <= c < |s.clients| ==> Accounted(s, c)
  }

  /** Open, but neither an attempt nor the pool knows it: nobody will ever close it. */
  ghost predicate Orphan(s: State, c: ClientId) {
    c < |s.clients| && s.clients[c].health.Open? && !Held(s, c) && !Live(s, c)
  }

  // ----- the bookkeeping that always holds -------------------------------------------

  ghost predicate AttemptOk(s: State, a: AttemptId)
    requires a < |s.attempts|
  {
    var x := s.attempts[a];
    && (x.client.Some? ==> x.client.value < |s.clients| && s.clients[x.client.value].owner == a)
    && (x.stage.Loading? ==> x.client.None?)
    && (x.stage.Connecting? || x.stage.Failing? || x.stage.Persisting? ==> x.client.Some?)
    && (Cancellable(x) ==> (x.cancelled <==> !(x.key in s.openings && s.openings[x.key] == a)))
    && (x.cancelled ==> !x.stage.Persisting?)
  }

  /** `c` was handed to the pool by an attempt for `key` that has been settled. */
  ghost predicate Pooled(s: State, key: Key, c: ClientId) {
    && c < |s.clients| && s.clients[c].owner < |s.attempts|
    && var x := s.attempts[s.clients[c].owner];
       x.client == Some(c) && x.key == key && !x.cancelled && (x.stage.Settled? || x.stage.Done?)
  }

  ghost predicate BooksOk(s: State) {
    && (forall a :: 0 <= a < |s.attempts| ==> AttemptOk(s, a))
    && (forall c :: 0 <= c < |s.clients| ==>
          s.clients[c].owner < |s.attempts| && s.attempts[s.clients[c].owner].client == Some(c))
    && (forall k :: k in s.openings ==> s.openings[k] < |s.attempts| && s.attempts[s.openings[k]].key == k)
    && (forall k :: k in s.entries ==> Pooled(s, k, s.entries[k]))
    && (forall d, n :: 0 <= d < |s.drains| && 0 <= n < |s.drains[d].rest| ==>
          Pooled(s, s.drains[d].rest[n].0, s.drains[d].rest[n].1))
  }

  // ----- the steps that lose a client ------------------------------------------------

  /**
   * The step leaves some client with nobody to close it: a record that cannot be
   * written, an entry overwritten by a second attempt for its key, or a drain
   * deleting, by key, an entry that was replaced since its copy was taken.
   */
  predicate Orphans(s: State, step: Step)
    requires Enabled(s, step)
  {
    match step
    case PersistFails(_) => true
    case Persisted(a, _) => s.attempts[a].key in s.entries
    case DrainNext(d) =>
      var (key, c) := s.drains[d].rest[0];
      key in s.entries && s.entries[key] != c && !Skips(s, d)
    case _ => false
  }

  lemma ClientFieldStays(s: State, step: Step, a: AttemptId)
    requires Enabled(s, step) && a < |s.attempts|
    ensures a < |Apply(s, step).attempts|
    ensures Apply(s, step).attempts[a].client == s.attempts[a].client
         || (step.Build? && step.attempt == a && Apply(s, step).attempts[a].client == Some(|s.clients|))
  {
  }

  lemma OwnerStays(s: State, step: Step, c: ClientId)
    requires Enabled(s, step) && c < |Apply(s, step).clients|
    ensures c < |s.clients| ==> Apply(s, step).clients[c].owner == s.clients[c].owner
    ensures c >= |s.clients| ==>
      step.Build? && c == |s.clients| && Apply(s, step).clients[c].owner == step.attempt
      && Apply(s, step).attempts[step.attempt].client == Some(c)
  {
  }

  lemma StepKeepsClient(s: State, step: Step, c: ClientId)
    requires BooksOk(s) && Enabled(s, step) && c < |Apply(s, step).clients|
    ensures var t := Apply(s, step);
      && t.clients[c].owner < |t.attempts| && t.attempts[t.clients[c].owner].client == Some(c)
      && (c < |s.clients| ==> t.clients[c].owner == s.clients[c].owner)
  {
    OwnerStays(s, step, c);
    if c < |s.clients| {
      var a := s.clients[c].owner;
      assert AttemptOk(s, a);
      ClientFieldStays(s, step, a);
    }
  }

  lemma CancelKeepsAttempt(s: State, keys: set<Key>, a: AttemptId)
    requires BooksOk(s) && a < |s.attempts|
    ensures AttemptOk(Cancel(s, keys), a)
  {
    assert AttemptOk(s, a);
  }

  lemma ClosingKeepsAttempt(s: State, t: State, a: AttemptId)
    requires a < |s.attempts| && AttemptOk(s, a)
    requires t.attempts == s.attempts && t.openings == s.openings && |t.clients| == |s.clients|
    requires forall c :: 0 <= c < |s.clients| ==> t.clients[c].owner == s.clients[c].owner
    ensures AttemptOk(t, a)
  {
  }

  lemma StepKeepsAttempt(s: State, step: Step, a: AttemptId)
    requires BooksOk(s) && Enabled(s, step) && a < |Apply(s, step).attempts|
    ensures AttemptOk(Apply(s, step), a)
  {
    hide Pooled, Snapshot, Skips;
    var t := Apply(s, step);
    assert a < |s.attempts| ==> AttemptOk(s, a);
    if step.Release? {
      CancelKeepsAttempt(s, {step.key}, a);
      ClosingKeepsAttempt(Cancel(s, {step.key}), t, a);
    } else if step.StartDrain? && !step.scope.Idle? {
      var keys := set k | k in s.openings && Matches(step.scope, k);
      CancelKeepsAttempt(s, keys, a);
      ClosingKeepsAttempt(Cancel(s, keys), t, a);
    } else if step.StartDrain? || step.DrainNext? || step.DrainResume? || step.CloseCompletes? {
      ClosingKeepsAttempt(s, t, a);
    } else {
      OwnStepKeepsAttempt(s, step, a);
    }
  }

  lemma AcquireKeepsAttempt(s: State, key: Key, now: int, a: AttemptId)
    requires BooksOk(s) && Enabled(s, Acquire(key, now)) && a < |Apply(s, Acquire(key, now)).attempts|
    ensures AttemptOk(Apply(s, Acquire(key, now)), a)
  {
    assert a < |s.attempts| ==> AttemptOk(s, a);
    if key in s.entries { assert Pooled(s, key, s.entries[key]); }
  }

  lemma BuildKeepsAttempt(s: State, b: AttemptId, now: int, a: AttemptId)
    requires BooksOk(s) && Enabled(s, Build(b, now)) && a < |s.attempts|
    ensures AttemptOk(Apply(s, Build(b, now)), a)
  {
    assert AttemptOk(s, a);
  }

  lemma MoveKeepsAttempt(s: State, step: Step, a: AttemptId)
    requires BooksOk(s) && Enabled(s, step) && a < |s.attempts|
    requires step.ServerMissing? || step.InitFails? || step.InitSucceeds? || step.FailureClosed?
          || step.Persisted? || step.PersistFails? || step.Finally?
    ensures AttemptOk(Apply(s, step), a)
  {
    hide Pooled, Cancel, Snapshot, Skips;
    assert AttemptOk(s, a);
  }

  lemma OwnStepKeepsAttempt(s: State, step: Step, a: AttemptId)
    requires BooksOk(s) && Enabled(s, step) && a < |Apply(s, step).attempts|
    requires !step.Release? && !step.StartDrain? && !step.DrainNext? && !step.DrainResume? && !step.CloseCompletes?
    ensures AttemptOk(Apply(s, step), a)
  {
    match step
    case Acquire(key, now) => AcquireKeepsAttempt(s, key, now, a);
    case Build(b, now) => BuildKeepsAttempt(s, b, now, a);
    case _ => MoveKeepsAttempt(s, step, a);
  }

  /** What a settled attempt handed over stays as it was. */
  lemma StepKeepsPooled(s: State, step: Step, key: Key, c: ClientId)
    requires BooksOk(s) && Enabled(s, step) && Pooled(s, key, c)
    ensures Pooled(Apply(s, step), key, c)
  {
    OwnerStays(s, step, c);
    SettledAttemptStays(s, step, s.clients[c].owner);
    hide Apply, Enabled, BooksOk;
  }

  lemma SettledAttemptStays(s: State, step: Step, a: AttemptId)
    requires Enabled(s, step) && a < |s.attempts| && (s.attempts[a].stage.Settled? || s.attempts[a].stage.Done?)
    ensures var t := Apply(s, step);
      && a < |t.attempts| && |t.clients| >= |s.clients| && (t.attempts[a].stage.Settled? || t.attempts[a].stage.Done?)
      && t.attempts[a].client == s.attempts[a].client && t.attempts[a].key == s.attempts[a].key
      && t.attempts[a].cancelled == s.attempts[a].cancelled
  {
    hide Snapshot, Skips, Matches;
  }

  lemma DrainsFromPool(s: State, step: Step, d: nat, n: nat)
    requires BooksOk(s) && Enabled(s, step)
    requires d < |Apply(s, step).drains| && n < |Apply(s, step).drains[d].rest|
    ensures var (key, c) := Apply(s, step).drains[d].rest[n]; Pooled(s, key, c)
  {
    var t := Apply(s, step);
    if d == |s.drains| {
      var k := step.order[n];
      assert k in step.order;
      assert t.drains[d].rest[n] == (k, s.entries[k]);
      assert Pooled(s, k, s.entries[k]);
    } else if step == DrainNext(d) {
      assert t.drains[d].rest[n] == s.drains[d].rest[n + 1];
      assert Pooled(s, s.drains[d].rest[n + 1].0, s.drains[d].rest[n + 1].1);
    } else {
      assert t.drains[d].rest == s.drains[d].rest;
      assert Pooled(s, s.drains[d].rest[n].0, s.drains[d].rest[n].1);
    }
  }

  lemma KeysStay(s: State, step: Step, a: AttemptId)
    requires Enabled(s, step) && a < |s.attempts|
    ensures a < |Apply(s, step).attempts| && Apply(s, step).attempts[a].key == s.attempts[a].key
  {
  }

  lemma OpeningOrigin(s: State, step: Step, k: Key)
    requires Enabled(s, step) && k in Apply(s, step).openings
    ensures (k in s.openings && Apply(s, step).openings[k] == s.openings[k])
         || (step.Acquire? && step.key == k && Apply(s, step).openings[k] == |s.attempts|
             && Apply(s, step).attempts == s.attempts + [Attempt(k, Loading, None, false)])
  {
  }

  lemma StepKeepsOpening(s: State, step: Step, k: Key)
    requires BooksOk(s) && Enabled(s, step) && k in Apply(s, step).openings
    ensures Apply(s, step).openings[k] < |Apply(s, step).attempts|
    ensures Apply(s, step).attempts[Apply(s, step).openings[k]].key == k
  {
    OpeningOrigin(s, step, k);
    if k in s.openings { KeysStay(s, step, s.openings[k]); }
  }

  lemma StepKeepsEntry(s: State, step: Step, k: Key)
    requires BooksOk(s) && Enabled(s, step) && k in Apply(s, step).entries
    ensures Pooled(Apply(s, step), k, Apply(s, step).entries[k])
  {
    if step.Persisted? && k == s.attempts[step.attempt].key {
      assert AttemptOk(s, step.attempt);
    } else {
      StepKeepsPooled(s, step, k, s.entries[k]);
    }
  }

  lemma StepKeepsBooks(s: State, step: Step)
    requires BooksOk(s) && Enabled(s, step)
    ensures BooksOk(Apply(s, step))
  {
    var t := Apply(s, step);
    forall a | 0 <= a < |t.attempts| ensures AttemptOk(t, a) { StepKeepsAttempt(s, step, a); }
    forall c | 0 <= c < |t.clients|
      ensures t.clients[c].owner < |t.attempts| && t.attempts[t.clients[c].owner].client == Some(c)
    {
      StepKeepsClient(s, step, c);
    }
    forall k | k in t.openings ensures t.openings[k] < |t.attempts| && t.attempts[t.openings[k]].key == k {
      StepKeepsOpening(s, step, k);
    }
    forall k | k in t.entries ensures Pooled(t, k, t.entries[k]) { StepKeepsEntry(s, step, k); }
    forall d, n | 0 <= d < |t.drains| && 0 <= n < |t.drains[d].rest|
      ensures Pooled(t, t.drains[d].rest[n].0, t.drains[d].rest[n].1)
    {
      DrainsFromPool(s, step, d, n);
      StepKeepsPooled(s, step, t.drains[d].rest[n].0, t.drains[d].rest[n].1);
    }
  }

  // ----- every client accounted for --------------------------------------------------

  lemma HeldAfter(s: State, step: Step, c: ClientId)
    requires BooksOk(s) && Enabled(s, step) && c < |s.clients|
    ensures c < |Apply(s, step).clients|
    ensures Held(Apply(s, step), c) ==> Held(s, c)
    ensures Held(s, c) && !Held(Apply(s, step), c) ==>
      && (step.InitFails? || step.InitSucceeds? || step.Persisted? || step.PersistFails?)
      && s.attempts[step.attempt].client == Some(c)
  {
    hide Pooled, Snapshot, Skips;
    StepKeepsClient(s, step, c);
    var a := s.clients[c].owner;
    assert AttemptOk(s, a);
  }

  lemma LiveUnderOwnKey(s: State, k: Key)
    requires BooksOk(s) && k in s.entries
    ensures s.entries[k] < |s.clients| && s.clients[s.entries[k]].owner < |s.attempts|
    ensures s.attempts[s.clients[s.entries[k]].owner].key == k && !Held(s, s.entries[k])
  {
    assert Pooled(s, k, s.entries[k]);
  }

  /** Entries only change where the step says. */
  lemma EntriesAfter(s: State, step: Step)
    requires Enabled(s, step)
    ensures var t := Apply(s, step);
      match step
      case Persisted(a, _) => t.entries == s.entries[s.attempts[a].key := s.attempts[a].client.value]
      case Release(key) => t.entries == s.entries - {key}
      case DrainNext(d) => t.entries == if Skips(s, d) then s.entries else s.entries - {s.drains[d].rest[0].0}
      case _ => t.entries == s.entries
  {
  }

  /** Clients are only closed where the step says; nothing reopens. */
  lemma HealthAfter(s: State, step: Step, c: ClientId)
    requires Enabled(s, step) && c < |s.clients|
    ensures c < |Apply(s, step).clients|
    ensures !s.clients[c].health.Open? ==> !Apply(s, step).clients[c].health.Open?
    ensures var open' := Apply(s, step).clients[c].health.Open?;
      s.clients[c].health.Open? ==>
        match step
        case InitFails(a) => open' <==> s.attempts[a].client != Some(c)
        case InitSucceeds(a) =>
          open' <==> s.attempts[a].client != Some(c) || (s.attempts[a].key in s.openings && s.openings[s.attempts[a].key] == a)
        case Release(key) => open' <==> !(key in s.entries && s.entries[key] == c)
        case DrainNext(d) => open' <==> Skips(s, d) || s.drains[d].rest[0].1 != c
        case _ => open'
  {
  }

  lemma ClientsAfter(s: State, step: Step)
    requires Enabled(s, step)
    ensures |Apply(s, step).clients| == |s.clients| + if step.Build? then 1 else 0
    ensures step.Build? ==> Apply(s, step).clients[|s.clients|] == Client(step.attempt, Open, step.now)
  {
  }

  lemma StagesAfter(s: State, step: Step, c: ClientId)
    requires BooksOk(s) && Enabled(s, step) && c < |s.clients| && Held(s, c)
    ensures c < |Apply(s, step).clients|
    ensures Held(Apply(s, step), c) <==>
      match step
      case InitFails(a) => s.attempts[a].client != Some(c)
      case InitSucceeds(a) =>
        s.attempts[a].client != Some(c) || (s.attempts[a].key in s.openings && s.openings[s.attempts[a].key] == a)
      case Persisted(a, _) => s.attempts[a].client != Some(c)
      case PersistFails(a) => s.attempts[a].client != Some(c)
      case _ => true
  {
    hide Pooled, Snapshot, Skips;
    StepKeepsClient(s, step, c);
    assert AttemptOk(s, s.clients[c].owner);
    if step.InitFails? || step.InitSucceeds? || step.Persisted? || step.PersistFails? {
      assert AttemptOk(s, step.attempt);
    }
  }

  lemma LiveElsewhere(s: State, t: State, c: ClientId, key: Key)
    requires BooksOk(s) && c < |s.clients| && Live(s, c)
    requires forall k :: k in s.entries && k != key ==> k in t.entries && t.entries[k] == s.entries[k]
    requires key in s.entries ==> s.entries[key] != c
    ensures Live(t, c)
  {
    var k :| k in s.entries && s.entries[k] == c;
    assert t.entries[k] == c;
  }

  lemma NotLiveWithoutKey(s: State, t: State, c: ClientId, key: Key)
    requires BooksOk(s) && t.entries == s.entries - {key}
    requires (key in s.entries && s.entries[key] == c) || Pooled(s, key, c)
    ensures !Live(t, c)
  {
    if Live(t, c) {
      var k :| k in t.entries && t.entries[k] == c;
      LiveUnderOwnKey(s, k);
      if key in s.entries && s.entries[key] == c { LiveUnderOwnKey(s, key); }
    }
  }

  lemma ReleaseAccounts(s: State, key: Key, c: ClientId)
    requires BooksOk(s) && AllAccounted(s) && Enabled(s, Release(key)) && c < |s.clients|
    ensures c < |Apply(s, Release(key)).clients| && Accounted(Apply(s, Release(key)), c)
  {
    var step, t := Release(key), Apply(s, Release(key));
    EntriesAfter(s, step);
    HealthAfter(s, step, c);
    HeldAfter(s, step, c);
    assert Accounted(s, c);
    if key in s.entries && s.entries[key] == c {
      LiveUnderOwnKey(s, key);
      NotLiveWithoutKey(s, t, c, key);
    } else if Live(s, c) {
      LiveElsewhere(s, t, c, key);
    }
  }

  lemma DrainAccounts(s: State, d: nat, c: ClientId)
    requires BooksOk(s) && AllAccounted(s) && Enabled(s, DrainNext(d)) && !Orphans(s, DrainNext(d)) && c < |s.clients|
    ensures c < |Apply(s, DrainNext(d)).clients| && Accounted(Apply(s, DrainNext(d)), c)
  {
    var step, t := DrainNext(d), Apply(s, DrainNext(d));
    EntriesAfter(s, step);
    HealthAfter(s, step, c);
    HeldAfter(s, step, c);
    assert Accounted(s, c);
    if !Skips(s, d) {
      var (key, head) := s.drains[d].rest[0];
      assert Pooled(s, s.drains[d].rest[0].0, s.drains[d].rest[0].1);
      if c == head {
        NotLiveWithoutKey(s, t, c, key);
      } else if Live(s, c) {
        LiveElsewhere(s, t, c, key);
      }
    }
  }

  lemma PersistAccounts(s: State, a: AttemptId, now: int, c: ClientId)
    requires BooksOk(s) && AllAccounted(s) && Enabled(s, Persisted(a, now)) && s.attempts[a].key !in s.entries && c < |s.clients|
    ensures c < |Apply(s, Persisted(a, now)).clients| && Accounted(Apply(s, Persisted(a, now)), c)
  {
    var step, t := Persisted(a, now), Apply(s, Persisted(a, now));
    var key := s.attempts[a].key;
    EntriesAfter(s, step);
    HealthAfter(s, step, c);
    HeldAfter(s, step, c);
    assert Accounted(s, c) && AttemptOk(s, a);
    if s.attempts[a].client == Some(c) {
      StagesAfter(s, step, c);
      assert t.entries[key] == c;
    } else if Held(s, c) {
      StagesAfter(s, step, c);
    } else if Live(s, c) {
      LiveElsewhere(s, t, c, key);
    }
  }

  lemma OtherStepsAccount(s: State, step: Step, c: ClientId)
    requires BooksOk(s) && AllAccounted(s) && Enabled(s, step) && !Orphans(s, step) && c < |s.clients|
    requires !step.Release? && !step.DrainNext? && !step.Persisted?
    ensures c < |Apply(s, step).clients| && Accounted(Apply(s, step), c)
  {
    EntriesAfter(s, step);
    HealthAfter(s, step, c);
    HeldAfter(s, step, c);
    assert Accounted(s, c);
    if Held(s, c) { StagesAfter(s, step, c); }
    if step.InitFails? || step.InitSucceeds? { assert AttemptOk(s, step.attempt); }
  }

  lemma BuiltIsHeld(s: State, a: AttemptId, now: int)
    requires BooksOk(s) && Enabled(s, Build(a, now))
    ensures |Apply(s, Build(a, now)).clients| == |s.clients| + 1 && Accounted(Apply(s, Build(a, now)), |s.clients|)
  {
    var t := Apply(s, Build(a, now));
    if Live(t, |s.clients|) {
      var k :| k in t.entries && t.entries[k] == |s.clients|;
      LiveUnderOwnKey(s, k);
    }
  }

  lemma StepAccounts(s: State, step: Step)
    requires BooksOk(s) && AllAccounted(s) && Enabled(s, step) && !Orphans(s, step)
    ensures AllAccounted(Apply(s, step))
  {
    var t := Apply(s, step);
    ClientsAfter(s, step);
    forall c | 0 <= c < |t.clients| ensures Accounted(t, c) {
      if c == |s.clients| {
        BuiltIsHeld(s, step.attempt, step.now);
      } else {
        match step
        case Release(key) => ReleaseAccounts(s, key, c);
        case DrainNext(d) => DrainAccounts(s, d, c);
        case Persisted(a, now) => PersistAccounts(s, a, now, c);
        case _ => OtherStepsAccount(s, step, c);
      }
    }
  }

  /** The client an orphaning step leaves behind. */
  function Abandoned(s: State, step: Step): ClientId
    requires Enabled(s, step) && Orphans(s, step)
  {
    match step
    case PersistFails(a) => s.attempts[a].client.value
    case Persisted(a, _) => s.entries[s.attempts[a].key]
    case DrainNext(d) => s.entries[s.drains[d].rest[0].0]
  }

  /**
   * Exactly these steps lose a client: with StepAccounts, the pool stays accounted
   * for if and only if no step orphans.
   */
  lemma OrphaningStepOrphans(s: State, step: Step)
    requires BooksOk(s) && AllAccounted(s) && Enabled(s, step) && Orphans(s, step)
    ensures Orphan(Apply(s, step), Abandoned(s, step))
  {
    var t, c := Apply(s, step), Abandoned(s, step);
    if step.PersistFails? {
      assert AttemptOk(s, step.attempt) && Accounted(s, c);
      EntriesAfter(s, step);
    } else {
      var key := if step.Persisted? then s.attempts[step.attempt].key else s.drains[step.drain].rest[0].0;
      LiveUnderOwnKey(s, key);
      assert Live(s, c) && Accounted(s, c);
      if step.Persisted? { assert AttemptOk(s, step.attempt); }
      EntriesAfter(s, step);
      if Live(t, c) {
        var k :| k in t.entries && t.entries[k] == c;
        if k in s.entries && s.entries[k] == c { LiveUnderOwnKey(s, k); }
      }
    }
    HealthAfter(s, step, c);
    HeldAfter(s, step, c);
  }

  /** An attempt cancelled while connecting never becomes live, and once it is settled its client is closed. */
  lemma CancelledNeverLives(s: State, a: AttemptId)
    requires BooksOk(s) && AllAccounted(s) && a < |s.attempts| && s.attempts[a].cancelled && s.attempts[a].client.Some?
    ensures s.attempts[a].client.value < |s.clients| && !Live(s, s.attempts[a].client.value)
    ensures !Cancellable(s.attempts[a]) ==> !s.clients[s.attempts[a].client.value].health.Open?
  {
    assert AttemptOk(s, a);
    var c := s.attempts[a].client.value;
    assert Accounted(s, c);
    forall k | k in s.entries ensures s.entries[k] != c {
      assert Pooled(s, k, s.entries[k]);
    }
  }

  // ----- runs ------------------------------------------------------------------------

  /** A release that lands between the token check and `entries.set`. */
  predicate Disturbs(s: State, step: Step) {
    match step
    case Release(key) => key in s.openings && Stands(s, s.openings[key], Persisting)
    case StartDrain(scope, _) =>
      !scope.Idle? && exists k :: k in s.openings && Matches(scope, k) && Stands(s, s.openings[k], Persisting)
    case _ => false
  }

  /** A drain deletes an entry that was replaced after its copy was taken. */
  predicate StaleDrain(s: State, step: Step)
    requires Enabled(s, step)
  {
    step.DrainNext? && Orphans(s, step)
  }

  predicate Calm(s: State, step: Step)
    requires Enabled(s, step)
  {
    !Disturbs(s, step) && !step.PersistFails? && !StaleDrain(s, step)
  }

  predicate Unsettled(stage: Stage) {
    !stage.Settled? && !stage.Done?
  }

  /** While an attempt with its token is unsettled, its key has no entry. */
  ghost predicate Reserved(s: State) {
    && (forall k :: k in s.openings && s.openings[k] < |s.attempts| && Unsettled(s.attempts[s.openings[k]].stage) ==>
          k !in s.entries)
    && (forall a :: 0 <= a < |s.attempts| && s.attempts[a].stage.Persisting? ==>
          s.attempts[a].key in s.openings && s.openings[s.attempts[a].key] == a)
  }

  lemma CalmStepsNeverOrphan(s: State, step: Step)
    requires BooksOk(s) && Reserved(s) && Enabled(s, step) && Calm(s, step)
    ensures !Orphans(s, step)
  {
  }

  lemma CancelKeepsReserved(s: State, keys: set<Key>)
    requires BooksOk(s) && Reserved(s)
    requires forall k :: k in keys && k in s.openings ==> !Stands(s, s.openings[k], Persisting)
    ensures Reserved(Cancel(s, keys))
  {
  }

  lemma StepKeepsReserved(s: State, step: Step)
    requires BooksOk(s) && Reserved(s) && Enabled(s, step) && Calm(s, step)
    ensures Reserved(Apply(s, step))
  {
    if step.Release? {
      CancelKeepsReserved(s, {step.key});
    } else if step.StartDrain? && !step.scope.Idle? {
      CancelKeepsReserved(s, set k | k in s.openings && Matches(step.scope, k));
    } else {
      OwnStepKeepsReserved(s, step);
    }
  }

  lemma AcquireKeepsReserved(s: State, key: Key, now: int)
    requires BooksOk(s) && Reserved(s) && Enabled(s, Acquire(key, now))
    ensures Reserved(Apply(s, Acquire(key, now)))
  {
    assert key in s.openings ==> s.openings[key] < |s.attempts|;
  }

  /** One attempt moves; entries grow only by its own key, openings shrink only by it. */
  lemma MoveKeepsReserved(s: State, t: State, a: AttemptId, stage: Stage)
    requires BooksOk(s) && Reserved(s) && a < |s.attempts|
    requires |t.attempts| == |s.attempts| && t.attempts[a].key == s.attempts[a].key && t.attempts[a].stage == stage
    requires forall b :: 0 <= b < |s.attempts| && b != a ==> t.attempts[b] == s.attempts[b]
    requires Unsettled(stage) ==> Unsettled(s.attempts[a].stage) && t.openings == s.openings && t.entries == s.entries
    requires !Unsettled(stage) ==>
      && (forall k :: k in t.openings <==> k in s.openings && (stage.Done? ==> s.openings[k] != a))
      && (forall k :: k in t.openings ==> t.openings[k] == s.openings[k])
      && (forall k :: k in t.entries ==> k in s.entries || (s.attempts[a].stage.Persisting? && k == s.attempts[a].key))
    requires stage.Persisting? ==> s.attempts[a].key in s.openings && s.openings[s.attempts[a].key] == a
    ensures Reserved(t)
  {
    forall k | k in t.openings && t.openings[k] < |t.attempts| && Unsettled(t.attempts[t.openings[k]].stage)
      ensures k !in t.entries
    {
      assert k in s.openings && s.openings[k] == t.openings[k];
    }
  }

  lemma InitKeepsReserved(s: State, step: Step)
    requires BooksOk(s) && Reserved(s) && Enabled(s, step)
    requires step.Build? || step.InitFails? || step.InitSucceeds?
    ensures Reserved(Apply(s, step))
  {
    var t := Apply(s, step);
    MoveKeepsReserved(s, t, step.attempt, t.attempts[step.attempt].stage);
  }

  lemma SettlingKeepsReserved(s: State, step: Step)
    requires BooksOk(s) && Reserved(s) && Enabled(s, step)
    requires step.ServerMissing? || step.FailureClosed? || step.Persisted? || step.PersistFails?
    ensures Reserved(Apply(s, step))
  {
    MoveKeepsReserved(s, Apply(s, step), step.attempt, Settled);
  }

  lemma FinallyKeepsReserved(s: State, a: AttemptId)
    requires BooksOk(s) && Reserved(s) && Enabled(s, Finally(a))
    ensures Reserved(Apply(s, Finally(a)))
  {
    assert forall k :: k in s.openings && s.openings[k] == a ==> k == s.attempts[a].key;
    MoveKeepsReserved(s, Apply(s, Finally(a)), a, Done);
  }

  lemma DrainKeepsReserved(s: State, step: Step)
    requires Reserved(s) && Enabled(s, step)
    requires (step.StartDrain? && step.scope.Idle?) || step.DrainNext? || step.DrainResume? || step.CloseCompletes?
    ensures Reserved(Apply(s, step))
  {
  }

  lemma OwnStepKeepsReserved(s: State, step: Step)
    requires BooksOk(s) && Reserved(s) && Enabled(s, step)
    requires !step.Release? && (step.StartDrain? ==> step.scope.Idle?)
    ensures Reserved(Apply(s, step))
  {
    match step
    case Acquire(key, now) => AcquireKeepsReserved(s, key, now);
    case Finally(a) => FinallyKeepsReserved(s, a);
    case Build(_, _) => InitKeepsReserved(s, step);
    case InitFails(_) => InitKeepsReserved(s, step);
    case InitSucceeds(_) => InitKeepsReserved(s, step);
    case ServerMissing(_) => SettlingKeepsReserved(s, step);
    case FailureClosed(_) => SettlingKeepsReserved(s, step);
    case Persisted(_, _) => SettlingKeepsReserved(s, step);
    case PersistFails(_) => SettlingKeepsReserved(s, step);
    case _ => DrainKeepsReserved(s, step);
  }

  /** The state a list of steps leads to; None when one of them is not enabled. */
  ghost function Run(s: State, steps: seq<Step>): Option<State> {
    if steps == [] then Some(s) else
    match Run(s, steps[..|steps| - 1])
    case None => None
    case Some(t) => if Enabled(t, steps[|steps| - 1]) then Some(Apply(t, steps[|steps| - 1])) else None
  }

  ghost predicate CalmRun(s: State, steps: seq<Step>) {
    steps == [] || (
      && CalmRun(s, steps[..|steps| - 1])
      && match Run(s, steps[..|steps| - 1])
         case None => true
         case Some(t) => Enabled(t, steps[|steps| - 1]) ==> Calm(t, steps[|steps| - 1]))
  }

  lemma {:induction false} CalmRunKeepsAll(s: State, steps: seq<Step>)
    requires BooksOk(s) && Reserved(s) && AllAccounted(s) && Run(s, steps).Some? && CalmRun(s, steps)
    ensures var t := Run(s, steps).value; BooksOk(t) && Reserved(t) && AllAccounted(t)
    decreases |steps|
  {
    if steps != [] {
      CalmRunKeepsAll(s, steps[..|steps| - 1]);
      var t, last := Run(s, steps[..|steps| - 1]).value, steps[|steps| - 1];
      CalmStepsNeverOrphan(t, last);
      StepKeepsBooks(t, last);
      StepKeepsReserved(t, last);
      StepAccounts(t, last);
    }
  }

  /** A client the pool uses, or may still come to use. */
  ghost predicate Usable(s: State, key: Key, c: ClientId) {
    && c < |s.clients| && s.clients[c].owner < |s.attempts|
    && s.attempts[s.clients[c].owner].key == key
    && (Live(s, c) || (Held(s, c) && !s.attempts[s.clients[c].owner].cancelled))
  }

  lemma UsableIsUnique(s: State, key: Key, c: ClientId, d: ClientId)
    requires BooksOk(s) && Reserved(s) && Usable(s, key, c) && Usable(s, key, d)
    ensures c == d
  {
    UsableHasKey(s, key, c);
    UsableHasKey(s, key, d);
  }

  lemma UsableHasKey(s: State, key: Key, c: ClientId)
    requires BooksOk(s) && Reserved(s) && Usable(s, key, c)
    ensures (key in s.entries && s.entries[key] == c)
         || (key !in s.entries && key in s.openings && s.openings[key] == s.clients[c].owner
             && s.attempts[s.clients[c].owner].client == Some(c))
  {
    if Live(s, c) {
      var k :| k in s.entries && s.entries[k] == c;
      LiveUnderOwnKey(s, k);
    } else {
      assert AttemptOk(s, s.clients[c].owner);
    }
  }

  /**
   * Over every interleaving in which each token check, record and entry form one
   * undisturbed step and no drain meets a replaced entry: every client built is
   * connecting, live or closed, and each key has at most one client in use.
   */
  lemma PoolIsAccountedFor(steps: seq<Step>)
    requires Run(Initial, steps).Some? && CalmRun(Initial, steps)
    ensures var s := Run(Initial, steps).value;
      && AllAccounted(s)
      && (forall key, c, d :: Usable(s, key, c) && Usable(s, key, d) ==> c == d)
      && (forall a :: 0 <= a < |s.attempts| && s.attempts[a].cancelled && s.attempts[a].client.Some? ==>
            && s.attempts[a].client.value < |s.clients| && !Live(s, s.attempts[a].client.value)
            && (s.attempts[a].stage.Settled? || s.attempts[a].stage.Done? ==>
                  !s.clients[s.attempts[a].client.value].health.Open?))
  {
    CalmRunKeepsAll(Initial, steps);
    var s := Run(Initial, steps).value;
    forall key, c, d | Usable(s, key, c) && Usable(s, key, d) ensures c == d { UsableIsUnique(s, key, c, d); }
    forall a | 0 <= a < |s.attempts| && s.attempts[a].cancelled && s.attempts[a].client.Some?
      ensures s.attempts[a].client.value < |s.clients| && !Live(s, s.attempts[a].client.value)
      ensures s.attempts[a].stage.Settled? || s.attempts[a].stage.Done? ==>
                !s.clients[s.attempts[a].client.value].health.Open?
    {
      CancelledNeverLives(s, a);
    }
  }

  // ----- a drain closes what it found -------------------------------------------------

  /** What the start of a drain cancels and copies, scope by scope; a sweep copies all and cancels nothing. */
  lemma DrainBegins(s: State, scope: Scope, order: seq<Key>)
    requires Enabled(s, StartDrain(scope, order))
    ensures var t, d := Apply(s, StartDrain(scope, order)), |s.drains|;
      && (forall k :: k in t.openings <==> (k in s.openings && !(
            || (scope.OfDownstream? && k.downstream == scope.downstream)
            || (scope.OfConnection? && k.connection == scope.connection) || scope.Everything?)))
      && (forall k :: k in t.openings ==> t.openings[k] == s.openings[k])
      && |t.drains| == d + 1 && t.drains[..d] == s.drains && t.drains[d].scope == scope && t.drains[d].waiting.None?
      && (forall k, c :: (k, c) in t.drains[d].rest <==> (k in s.entries && s.entries[k] == c && (
            || (scope.OfDownstream? && k.downstream == scope.downstream)
            || (scope.OfConnection? && k.connection == scope.connection) || scope.Everything? || scope.Idle?)))
  {
    var rest := Snapshot(s, order);
    forall k | k in order ensures (k, s.entries[k]) in rest {
      var n :| 0 <= n < |order| && order[n] == k;
      assert rest[n] == (k, s.entries[k]);
    }
    forall e | e in rest ensures e.0 in order && s.entries[e.0] == e.1 {
      var n :| 0 <= n < |rest| && rest[n] == e;
      assert order[n] in order;
    }
    hide Snapshot;
  }

  /** Drain `d` has closed client `c`, is closing it, or has still to visit it. */
  ghost predicate Attended(s: State, d: nat, key: Key, c: ClientId) {
    && d < |s.drains| && c < |s.clients|
    && (s.clients[c].health.Closed? || s.drains[d].waiting == Some(c) || (key, c) in s.drains[d].rest)
  }

  lemma StepKeepsAttended(s: State, step: Step, d: nat, key: Key, c: ClientId)
    requires Enabled(s, step) && Attended(s, d, key, c) && !s.drains[d].scope.Idle?
    ensures Attended(Apply(s, step), d, key, c) && !Apply(s, step).drains[d].scope.Idle?
  {
    var t := Apply(s, step);
    hide Snapshot, Cancel;
    if step == DrainNext(d) && (key, c) in s.drains[d].rest && (key, c) != s.drains[d].rest[0] {
      var n :| 0 <= n < |s.drains[d].rest| && s.drains[d].rest[n] == (key, c);
      assert t.drains[d].rest[n - 1] == (key, c);
    }
  }

  lemma {:induction false} RunKeepsAttended(s: State, steps: seq<Step>, d: nat, key: Key, c: ClientId)
    requires Run(s, steps).Some? && Attended(s, d, key, c) && !s.drains[d].scope.Idle?
    ensures Attended(Run(s, steps).value, d, key, c) && !Run(s, steps).value.drains[d].scope.Idle?
    decreases |steps|
  {
    hide Attended, Apply, Enabled;
    if steps != [] {
      RunKeepsAttended(s, steps[..|steps| - 1], d, key, c);
      StepKeepsAttended(Run(s, steps[..|steps| - 1]).value, steps[|steps| - 1], d, key, c);
    }
  }

  /**
   * A drain that has come to its end has closed every session that was live in its scope
   * when it began, whatever happened meanwhile: those of a downstream session, those of
   * a connection, or all.
   */
  lemma DrainClosesItsScope(s: State, scope: Scope, order: seq<Key>, steps: seq<Step>, key: Key)
    requires BooksOk(s) && Enabled(s, StartDrain(scope, order)) && key in s.entries
    requires (scope.OfDownstream? && key.downstream == scope.downstream)
          || (scope.OfConnection? && key.connection == scope.connection) || scope.Everything?
    requires Run(Apply(s, StartDrain(scope, order)), steps).Some?
    requires var t := Run(Apply(s, StartDrain(scope, order)), steps).value;
      |s.drains| < |t.drains| && t.drains[|s.drains|].rest == [] && t.drains[|s.drains|].waiting.None?
    ensures var t := Run(Apply(s, StartDrain(scope, order)), steps).value;
      s.entries[key] < |t.clients| && t.clients[s.entries[key]].health.Closed?
  {
    var d, c, u := |s.drains|, s.entries[key], Apply(s, StartDrain(scope, order));
    assert Pooled(s, key, c);
    assert key in order;
    var n :| 0 <= n < |order| && order[n] == key;
    assert u.drains[d].rest[n] == (key, c);
    assert Attended(u, d, key, c);
    hide Run, Apply, Enabled, BooksOk;
    RunKeepsAttended(u, steps, d, key, c);
  }

  // ----- the conditions are needed ---------------------------------------------------

  lemma Extend(s: State, steps: seq<Step>, t: State, step: Step)
    requires Run(s, steps) == Some(t) && Enabled(t, step)
    ensures Run(s, steps + [step]) == Some(Apply(t, step))
  {
    assert (steps + [step])[..|steps|] == steps;
  }

  /** A key with neither entry nor opening gets a live client in four steps. */
  lemma OpensClient(s0: State, steps: seq<Step>, s: State, key: Key, now: int) returns (t: State)
    requires Run(s0, steps) == Some(s) && key !in s.entries && key !in s.openings
    ensures Run(s0, steps + [Acquire(key, now), Build(|s.attempts|, now), InitSucceeds(|s.attempts|), Persisted(|s.attempts|, now)])
         == Some(t)
    ensures t.entries == s.entries[key := |s.clients|] && t.drains == s.drains
    ensures |t.clients| == |s.clients| + 1 && t.clients[..|s.clients|] == s.clients && t.clients[|s.clients|].health.Open?
    ensures !Held(t, |s.clients|)
  {
    var a := |s.attempts|;
    var s1 := Apply(s, Acquire(key, now));
    var s2 := Apply(s1, Build(a, now));
    var s3 := Apply(s2, InitSucceeds(a));
    t := Apply(s3, Persisted(a, now));
    Extend(s0, steps, s, Acquire(key, now));
    Extend(s0, steps + [Acquire(key, now)], s1, Build(a, now));
    Extend(s0, steps + [Acquire(key, now)] + [Build(a, now)], s2, InitSucceeds(a));
    Extend(s0, steps + [Acquire(key, now)] + [Build(a, now)] + [InitSucceeds(a)], s3, Persisted(a, now));
    assert steps + [Acquire(key, now)] + [Build(a, now)] + [InitSucceeds(a)] + [Persisted(a, now)]
        == steps + [Acquire(key, now), Build(a, now), InitSucceeds(a), Persisted(a, now)];
  }

  lemma ReleaseShape(s: State, key: Key)
    requires Enabled(s, Release(key)) && key in s.entries
    ensures var t := Apply(s, Release(key));
      && t.entries == s.entries - {key} && t.openings == s.openings - {key} && t.drains == s.drains
      && |t.attempts| == |s.attempts| && |t.clients| == |s.clients|
      && forall c :: 0 <= c < |s.clients| && s.clients[c].health.Closed? ==> t.clients[c] == s.clients[c]
  {
  }

  lemma ReleasedKey(s: State, key: Key) returns (t: State)
    requires BooksOk(s) && key in s.entries
    ensures Run(s, [] + [Release(key)]) == Some(t)
    ensures key !in t.entries && key !in t.openings && t.drains == s.drains
    ensures |t.attempts| == |s.attempts| && |t.clients| == |s.clients|
    ensures forall c :: 0 <= c < |s.clients| && s.clients[c].health.Closed? ==> t.clients[c] == s.clients[c]
    ensures forall k :: k in t.entries ==> t.entries[k] < |t.clients|
  {
    LiveUnderOwnKey(s, key);
    ReleaseShape(s, key);
    t := Apply(s, Release(key));
    Extend(s, [], s, Release(key));
    forall k | k in t.entries ensures t.entries[k] < |t.clients| { LiveUnderOwnKey(s, k); }
  }

  lemma ResumeShape(s: State, d: nat)
    requires Enabled(s, DrainResume(d))
    ensures Apply(s, DrainResume(d)) == s.(drains := s.drains[d := s.drains[d].(waiting := None)])
  {
  }

  lemma DrainNextShape(s: State, d: nat)
    requires d < |s.drains| && s.drains[d].waiting.None? && s.drains[d].rest != []
    requires s.drains[d].rest[0].1 < |s.clients| && !s.drains[d].scope.Idle?
    ensures Enabled(s, DrainNext(d))
    ensures var t := Apply(s, DrainNext(d));
      && t.entries == s.entries - {s.drains[d].rest[0].0} && t.attempts == s.attempts && |t.clients| == |s.clients|
      && forall c :: 0 <= c < |s.clients| && c != s.drains[d].rest[0].1 ==> t.clients[c] == s.clients[c]
  {
  }

  /** The drain goes on and deletes the entry under its next key, whatever is there now. */
  lemma DrainGoesOn(s0: State, steps: seq<Step>, s: State, d: nat) returns (t: State)
    requires Run(s0, steps) == Some(s) && Enabled(s, DrainResume(d))
    requires s.drains[d].rest != [] && !s.drains[d].scope.Idle? && s.drains[d].rest[0].1 < |s.clients|
    ensures Run(s0, steps + [DrainResume(d)] + [DrainNext(d)]) == Some(t)
    ensures t.entries == s.entries - {s.drains[d].rest[0].0} && t.attempts == s.attempts && |t.clients| == |s.clients|
    ensures forall c :: 0 <= c < |s.clients| && c != s.drains[d].rest[0].1 ==> t.clients[c] == s.clients[c]
  {
    var s1 := Apply(s, DrainResume(d));
    ResumeShape(s, d);
    DrainNextShape(s1, d);
    t := Apply(s1, DrainNext(d));
    Extend(s0, steps, s, DrainResume(d));
    Extend(s0, steps + [DrainResume(d)], s1, DrainNext(d));
  }

  /**
   * A session reopened under a key that a waiting drain has still to visit is
   * dropped from the pool without being closed.
   */
  lemma ReopenedDuringDrainIsLost(s: State, d: nat, now: int)
    requires BooksOk(s) && d < |s.drains| && !s.drains[d].scope.Idle?
    requires s.drains[d].waiting.Some? && Enabled(s, DrainResume(d)) && s.drains[d].rest != []
    requires var (key, c) := s.drains[d].rest[0]; key in s.entries && s.entries[key] == c
    ensures var (key, c) := s.drains[d].rest[0];
            var a := |s.attempts|;
            var after := Run(s, [Release(key), Acquire(key, now), Build(a, now), InitSucceeds(a), Persisted(a, now)]
                                + [DrainResume(d)] + [DrainNext(d)]);
            after.Some? && Orphan(after.value, |s.clients|)
  {
    var (key, c) := s.drains[d].rest[0];
    var a := |s.attempts|;
    LiveUnderOwnKey(s, key);
    var s1 := ReleasedKey(s, key);
    var s2 := OpensClient(s, [] + [Release(key)], s1, key, now);
    assert forall n :: 0 <= n < |s.clients| ==> s2.clients[n] == s2.clients[..|s.clients|][n];
    var steps := [Release(key), Acquire(key, now), Build(a, now), InitSucceeds(a), Persisted(a, now)];
    assert [] + [Release(key)] + [Acquire(key, now), Build(a, now), InitSucceeds(a), Persisted(a, now)] == steps;
    var t := DrainGoesOn(s, steps, s2, d);
    NobodyKnows(s1, s2, t, key, |s.clients|);
  }

  lemma NobodyKnows(s: State, u: State, t: State, key: Key, c: ClientId)
    requires forall k :: k in s.entries ==> s.entries[k] < |s.clients|
    requires c == |s.clients| && u.entries == s.entries[key := c] && t.entries == u.entries - {key}
    ensures !Live(t, c)
  {
  }

  /** A release that lands while the record is written does not stop the session from going live. */
  lemma ReleaseInWindowStillLives(key: Key, now: int)
    ensures var after := Run(Initial, [Acquire(key, now), Build(0, now), InitSucceeds(0), Release(key), Persisted(0, now)]);
            after.Some? && Live(after.value, 0)
  {
    var s1 := Apply(Initial, Acquire(key, now));
    var s2 := Apply(s1, Build(0, now));
    var s3 := Apply(s2, InitSucceeds(0));
    var s4 := Apply(s3, Release(key));
    var s5 := Apply(s4, Persisted(0, now));
    Extend(Initial, [], Initial, Acquire(key, now));
    Extend(Initial, [] + [Acquire(key, now)], s1, Build(0, now));
    Extend(Initial, [] + [Acquire(key, now)] + [Build(0, now)], s2, InitSucceeds(0));
    Extend(Initial, [] + [Acquire(key, now)] + [Build(0, now)] + [InitSucceeds(0)], s3, Release(key));
    Extend(Initial, [] + [Acquire(key, now)] + [Build(0, now)] + [InitSucceeds(0)] + [Release(key)], s4, Persisted(0, now));
    assert [] + [Acquire(key, now)] + [Build(0, now)] + [InitSucceeds(0)] + [Release(key)] + [Persisted(0, now)]
        == [Acquire(key, now), Build(0, now), InitSucceeds(0), Release(key), Persisted(0, now)];
    assert s5.entries[key] == 0;
  }

  // ----- the object ------------------------------------------------------------------

  ghost predicate OpeningsOk(s: State) {
    forall k :: k in s.openings ==> s.openings[k] < |s.attempts| && s.attempts[s.openings[k]].key == k
  }

  lemma CancelNobody(s: State)
    ensures Cancel(s, {}) == s
  {
    assert s.openings - {} == s.openings && Cancel(s, {}).attempts == s.attempts;
  }

  lemma CancelKeepsOpenings(s: State, keys: set<Key>)
    requires OpeningsOk(s)
    ensures OpeningsOk(Cancel(s, keys))
  {
  }

  lemma CancelTwice(s: State, a: set<Key>, b: set<Key>)
    ensures Cancel(Cancel(s, a), b) == Cancel(s, a + b)
  {
    var t, u := Cancel(Cancel(s, a), b), Cancel(s, a + b);
    assert t.openings == u.openings && t.attempts == u.attempts;
  }

  /** The manager as the object it is: one method per stretch of code between two awaits. */
  class UpstreamSessionManager {
    var entries: map<Key, ClientId>
    var openings: map<Key, AttemptId>
    var attempts: seq<Attempt>
    var clients: seq<Client>
    var drains: seq<Drain>  // the loops under way, each with its own copy of the entries

    ghost function Model(): State
      reads this
    {
      State(entries, openings, attempts, clients, drains)
    }

    constructor ()
      ensures Model() == Initial
    {
      entries, openings, attempts, clients, drains := map[], map[], [], [], [];
    }

    /** Up to the first await: the client already live, the attempt to share, or a new attempt. */
    method AcquireSession(key: Key, now: int) returns (live: Option<ClientId>, attempt: Option<AttemptId>)
      requires BooksOk(Model()) && Enabled(Model(), Acquire(key, now))
      modifies this
      ensures Model() == Apply(old(Model()), Acquire(key, now))
      ensures key in old(entries) ==>
        && live == Some(old(entries)[key]) && attempt.None? && live.value < |old(clients)|
        && clients == old(clients)[live.value := old(clients)[live.value].(lastUsed := now)]
      ensures key in old(entries) || key in old(openings) ==> openings == old(openings) && attempts == old(attempts)
      ensures key !in old(entries) ==> live.None? && key in openings && attempt == Some(openings[key]) && clients == old(clients)
      ensures key !in old(entries) && key !in old(openings) ==>
        attempts == old(attempts) + [Attempt(key, Loading, None, false)] && openings == old(openings)[key := |old(attempts)|]
      ensures entries == old(entries) && drains == old(drains)
    {
      if key in entries {
        var c := entries[key];
        clients := clients[c := clients[c].(lastUsed := now)];
        return Some(c), None;
      }
      if key in openings {
        return None, Some(openings[key]);
      }
      var token := |attempts|;
      attempts := attempts + [Attempt(key, Loading, None, false)];
      openings := openings[key := token];
      return None, Some(token);
    }

    method Close(c: ClientId)
      requires c < |clients|
      modifies this`clients
      ensures Model() == CloseClient(old(Model()), c)
    {
      if clients[c].health.Open? {
        clients := clients[c := clients[c].(health := Closing)];
      }
    }

    /** `initialize()` came back: keep the session only if its token is still the current one. */
    method Initialized(a: AttemptId) returns (wanted: bool)
      requires Enabled(Model(), InitSucceeds(a))
      modifies this`clients, this`attempts
      ensures Model() == Apply(old(Model()), InitSucceeds(a))
      ensures wanted <==> attempts[a].stage.Persisting?
      ensures wanted <==> old(attempts)[a].key in openings && openings[old(attempts)[a].key] == a
      ensures clients == if wanted || !old(clients)[old(attempts)[a].client.value].health.Open? then old(clients)
        else old(clients)[old(attempts)[a].client.value := old(clients)[old(attempts)[a].client.value].(health := Closing)]
    {
      var key := attempts[a].key;
      wanted := key in openings && openings[key] == a;
      if wanted {
        attempts := attempts[a := attempts[a].(stage := Persisting)];
      } else {
        Close(attempts[a].client.value);
        attempts := attempts[a := attempts[a].(stage := Failing)];
      }
    }

    method Record(a: AttemptId, now: int)
      requires Enabled(Model(), Persisted(a, now))
      modifies this
      ensures Model() == Apply(old(Model()), Persisted(a, now))
      ensures entries == old(entries)[old(attempts)[a].key := old(attempts)[a].client.value]
    {
      var c := attempts[a].client.value;
      entries := entries[attempts[a].key := c];
      clients := clients[c := clients[c].(lastUsed := now)];
      attempts := attempts[a := attempts[a].(stage := Settled)];
    }

    method AttemptEnded(a: AttemptId)
      requires Enabled(Model(), Finally(a))
      modifies this`attempts, this`openings
      ensures Model() == Apply(old(Model()), Finally(a))
      ensures var key := old(attempts)[a].key;
        openings == if key in old(openings) && old(openings)[key] == a then old(openings) - {key} else old(openings)
    {
      var key := attempts[a].key;
      if key in openings && openings[key] == a {
        openings := openings - {key};
      }
      attempts := attempts[a := attempts[a].(stage := Done)];
    }

    method CancelOpening(key: Key)
      requires OpeningsOk(Model())
      modifies this`attempts, this`openings
      ensures Model() == Cancel(old(Model()), {key})
    {
      ghost var before := Model();
      if key in openings {
        var a := openings[key];
        if Cancellable(attempts[a]) {
          attempts := attempts[a := attempts[a].(cancelled := true)];
        }
        openings := openings - {key};
      }
      assert openings == before.openings - {key};
      assert attempts == Cancel(before, {key}).attempts;
    }

    method CancelMatching(scope: Scope)
      requires OpeningsOk(Model())
      modifies this`attempts, this`openings
      ensures Model() == Cancel(old(Model()), set k | k in old(openings) && Matches(scope, k))
    {
      hide Cancel, Matches, OpeningsOk;
      ghost var before := Model();
      var keys := openings.Keys;
      ghost var done: set<Key> := {};
      CancelNobody(before);
      while keys != {}
        invariant Model() == Cancel(before, done) && keys <= before.openings.Keys
        invariant done <= before.openings.Keys
        invariant forall k :: k in before.openings ==> (k in done <==> Matches(scope, k) && k !in keys)
        decreases |keys|
      {
        var key :| key in keys;
        keys := keys - {key};
        if Matches(scope, key) {
          CancelKeepsOpenings(before, done);
          CancelOpening(key);
          CancelTwice(before, done, {key});
          done := done + {key};
        }
      }
      assert done == set k | k in before.openings && Matches(scope, k);
    }

    /**
     * The loops of releaseDownstream, releaseConnection, closeAll and sweep up to their
     * first await: matching attempts are cancelled, matching entries copied.
     */
    method BeginDrain(scope: Scope, order: seq<Key>)
      requires BooksOk(Model()) && Enabled(Model(), StartDrain(scope, order))
      modifies this`attempts, this`openings, this`drains
      ensures Model() == Apply(old(Model()), StartDrain(scope, order))
      ensures forall k :: k in openings <==> (k in old(openings) && !(
        || (scope.OfDownstream? && k.downstream == scope.downstream)
        || (scope.OfConnection? && k.connection == scope.connection) || scope.Everything?))
      ensures forall k :: k in openings ==> openings[k] == old(openings)[k]
      ensures |drains| == |old(drains)| + 1 && drains[..|old(drains)|] == old(drains)
      ensures drains[|old(drains)|].scope == scope && drains[|old(drains)|].waiting.None?
      ensures forall k, c :: (k, c) in drains[|old(drains)|].rest <==> (k in entries && entries[k] == c && (
        || (scope.OfDownstream? && k.downstream == scope.downstream)
        || (scope.OfConnection? && k.connection == scope.connection) || scope.Everything? || scope.Idle?))
    {
      DrainBegins(Model(), scope, order);
      hide AttemptOk, Pooled, Cancel, Matches;
      if !scope.Idle? {
        CancelMatching(scope);
      }
      var live := entries;
      assert forall k :: k in order ==> k in live;
      var copy := seq(|order|, n requires 0 <= n < |order| => (order[n], live[order[n]]));
      assert copy == Snapshot(old(Model()), order);
      drains := drains + [Drain(scope, copy, None)];
    }

    /** One turn of such a loop, up to the await of the close it starts. */
    method VisitNext(d: nat)
      requires BooksOk(Model()) && Enabled(Model(), DrainNext(d))
      modifies this`entries, this`clients, this`drains
      ensures Model() == Apply(old(Model()), DrainNext(d))
      ensures var drain, key, c := old(drains)[d], old(drains)[d].rest[0].0, old(drains)[d].rest[0].1;
        if drain.scope.Idle? && drain.scope.now - old(clients)[c].lastUsed <= drain.scope.idleMs
        then && entries == old(entries) && clients == old(clients)
             && drains == old(drains)[d := drain.(rest := drain.rest[1..])]
        else && entries == old(entries) - {key} && !clients[c].health.Open?
             && drains == old(drains)[d := Drain(drain.scope, drain.rest[1..], Some(c))]
      ensures |clients| == |old(clients)|
      ensures forall e :: 0 <= e < |clients| && e != old(drains)[d].rest[0].1 ==> clients[e] == old(clients)[e]
    {
      var drain := drains[d];
      var (key, c) := drain.rest[0];
      if drain.scope.Idle? && drain.scope.now - clients[c].lastUsed <= drain.scope.idleMs {
        drains := drains[d := drain.(rest := drain.rest[1..])];
        return;
      }
      entries := entries - {key};
      Close(c);
      drains := drains[d := Drain(drain.scope, drain.rest[1..], Some(c))];
    }

    method ReleaseSession(key: Key)
      requires BooksOk(Model()) && Enabled(Model(), Release(key))
      modifies this`attempts, this`openings, this`entries, this`clients
      ensures Model() == Apply(old(Model()), Release(key))
      ensures openings == old(openings) - {key} && entries == old(entries) - {key}
      ensures key !in old(entries) ==> clients == old(clients)
      ensures key in old(entries) ==> |clients| == |old(clients)| && forall c :: 0 <= c < |clients| ==>
        if c == old(entries)[key] then !clients[c].health.Open? else clients[c] == old(clients)[c]
    {
      CancelOpening(key);
      if key in entries {
        Close(entries[key]);
        entries := entries - {key};
      }
    }
  }
}
