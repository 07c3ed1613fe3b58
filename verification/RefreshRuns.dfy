/**
 * Runs from the start in which a rotation is lost: one for each hazard of
 * RefreshSafety, in which no lease lapses, and one in which a lease does. All begin
 * alike: an authorization code is exchanged, and the first refresh reads the row.
 */
module RefreshRuns {
  import opened Wrappers
  import opened TokenRefresh
  import opened RefreshSafety
  import Lock = LeaseLock

  const LEASE_MS := 30_000

  // ----- building blocks ------------------------------------------------------------

  /** Answers of the server: a new refresh token, none because the old one stays, none at all. */
  function Rotates(token: Token): Offer { Offer(token, token, None, true, true) }

  function Keeps(token: Token): Offer { Offer(token, token, None, true, false) }

  function Withholds(token: Token): Offer { Offer(token, token, None, false, false) }

  /** Code exchange number `e`: read, consumed, accepted as grant `id`, stored. */
  function Exchanging(e: nat, id: nat, offer: Offer): seq<Step> {
    [ReadForExchange(id), Consume(e), CodeAccepted(e, id, offer)] + [StoreExchange(e)]
  }

  /** Section number `n` takes the row and reads the connection. */
  function Entering(replica: Lock.Replica, n: nat): seq<Step> {
    [LockStep(Lock.Begin(replica, REFRESH_KEY)), LockStep(Lock.AskRow(n)), LockStep(Lock.RowAnswer(n, LEASE_MS))] + [Reread(n, 0)]
  }

  lemma FourSteps(s: State, a: Step, b: Step, c: Step, d: Step)
    requires Enabled(s, a) && Enabled(Apply(s, a), b) && Enabled(Apply(Apply(s, a), b), c)
    requires Enabled(Apply(Apply(Apply(s, a), b), c), d)
    ensures Run(s, [a, b, c] + [d]) == Some(Apply(Apply(Apply(Apply(s, a), b), c), d))
  {
    ThreeSteps(s, a, b, c);
    assert [a] + [b, c] == [a, b, c];
    Extend(s, [a, b, c], Apply(Apply(Apply(s, a), b), c), d);
  }

  /** A whole exchange with nothing in between stores what the server sent. */
  lemma ExchangeRuns(s: State, id: nat, offer: Offer) returns (t: State)
    requires |s.pcs| == |s.lock.sections|
    requires id !in s.consumed && id !in s.server.grants && offer.freshRefresh !in s.server.index
    ensures Run(s, Exchanging(|s.exchanges|, id, offer)) == Some(t)
    ensures var answer := ExchangeCode(s.server, id, offer);
      && t.pcs == s.pcs && t.lock == s.lock && t.maxRetries == s.maxRetries
      && t.server == answer.server && t.row == Merge(s.row, answer.tokens.value)
      && |t.exchanges| == |s.exchanges| + 1 && t.consumed == s.consumed + {id}
  {
    var e := |s.exchanges|;
    var s1 := Apply(s, ReadForExchange(id));
    assert s1.exchanges[e] == HasRead(id, s.row);
    var s2 := Apply(s1, Consume(e));
    assert s2.exchanges[e] == HasConsumed(s.row);
    var s3 := Apply(s2, CodeAccepted(e, id, offer));
    assert s3.exchanges[e] == Granted(s.row, ExchangeCode(s.server, id, offer).tokens.value);
    t := Apply(s3, StoreExchange(e));
    hide Run;
    FourSteps(s, ReadForExchange(id), Consume(e), CodeAccepted(e, id, offer), StoreExchange(e));
  }

  /** A section that finds the row free and the access token used up goes on to refresh. */
  lemma EntersToRefresh(s: State, replica: Lock.Replica) returns (t: State)
    requires |s.pcs| == |s.lock.sections| && Lock.CanAcquire(s.lock.rows, REFRESH_KEY, s.lock.clock)
    requires Lock.Observe(s.lock) == s.lock
    requires !Barred(s.row) && !Usable(s.row, 0, s.lock.clock) && s.row.refresh.Some?
    ensures Run(s, Entering(replica, |s.pcs|)) == Some(t)
    ensures t == s.(pcs := s.pcs + [Refreshing(s.row, 0)], lock := t.lock)
    ensures |t.pcs| == |t.lock.sections| && t.lock.clock == s.lock.clock && Lock.Observe(t.lock) == t.lock
    ensures t.lock.rows == s.lock.rows[REFRESH_KEY := Lock.Lease(replica, s.lock.clock + LEASE_MS)]
    ensures NothingLapsed(s) ==> NothingLapsed(t)
  {
    var n := |s.pcs|;
    Lock.TakesRow(s.lock, replica, REFRESH_KEY, LEASE_MS);
    hide Lock.Apply, Lock.Observe, Run;
    var s1 := Apply(s, LockStep(Lock.Begin(replica, REFRESH_KEY)));
    var s2 := Apply(s1, LockStep(Lock.AskRow(n)));
    assert s2.pcs == s.pcs + [Queued];
    var s3 := Apply(s2, LockStep(Lock.RowAnswer(n, LEASE_MS)));
    assert s3.pcs == s.pcs + [Entered];
    t := Apply(s3, Reread(n, 0));
    FourSteps(s, LockStep(Lock.Begin(replica, REFRESH_KEY)), LockStep(Lock.AskRow(n)),
              LockStep(Lock.RowAnswer(n, LEASE_MS)), Reread(n, 0));
  }

  // ----- the common beginning -------------------------------------------------------

  function Start(clock: int): seq<Step> {
    Exchanging(0, 0, Rotates(0).(expiresAt := Some(clock))) + Entering(0, 0)
  }

  function FirstRow(clock: int): Row {
    Row(2, Some(0), Some(0), Some(clock), Connected)
  }

  /** One section refreshes with token 0, which is current. */
  ghost predicate Started(s: State, clock: int, maxRetries: nat) {
    && s.pcs == [Refreshing(FirstRow(clock), 0)] && s.row == FirstRow(clock) && s.maxRetries == maxRetries
    && s.server == Server(map[0 := Grant(Some(0), {}, false)], map[0 := 0])
    && |s.exchanges| == 1 && s.consumed == {0}
    && |s.lock.sections| == 1 && s.lock.clock == clock && Lock.Observe(s.lock) == s.lock && NothingLapsed(s)
    && s.lock.rows == map[REFRESH_KEY := Lock.Lease(0, clock + LEASE_MS)]
  }

  lemma FirstExchange(clock: int, maxRetries: nat) returns (s: State)
    ensures Run(Initial(clock, maxRetries), Exchanging(0, 0, Rotates(0).(expiresAt := Some(clock)))) == Some(s)
    ensures s.pcs == [] && s.row == FirstRow(clock) && s.maxRetries == maxRetries
    ensures s.server == Server(map[0 := Grant(Some(0), {}, false)], map[0 := 0])
    ensures |s.exchanges| == 1 && s.consumed == {0} && s.lock == Lock.Initial(clock)
  {
    hide Run, Enabled, Exchanging;
    s := ExchangeRuns(Initial(clock, maxRetries), 0, Rotates(0).(expiresAt := Some(clock)));
    var none: set<Token> := {};
    assert none + none == none;
    assert s.server.grants == map[0 := Grant(Some(0), {}, false)];
    assert s.server.index == map[0 := 0];
  }

  lemma Starts(clock: int, maxRetries: nat) returns (s: State)
    ensures Run(Initial(clock, maxRetries), Start(clock)) == Some(s) && Started(s, clock, maxRetries)
  {
    hide Run, Enabled, Exchanging, Entering, Initial;
    var s1 := FirstExchange(clock, maxRetries);
    assert Lock.Observe(s1.lock).sections == s1.lock.sections;
    assert Lock.OnTime(s1.lock, REFRESH_KEY);
    s := EntersToRefresh(s1, 0);
    RunAppends(Initial(clock, maxRetries), Exchanging(0, 0, Rotates(0).(expiresAt := Some(clock))), s1, Entering(0, 0));
  }

  // ----- one run for each hazard ------------------------------------------------------

  /** The steps are possible, and no lease lapses. */
  ghost predicate Runs(clock: int, maxRetries: nat, steps: seq<Step>) {
    match Run(Initial(clock, maxRetries), steps)
    case None => false
    case Some(t) => NothingLapsed(t)
  }

  ghost function After(clock: int, maxRetries: nat, steps: seq<Step>): State
    requires Runs(clock, maxRetries, steps)
  {
    Run(Initial(clock, maxRetries), steps).value
  }

  lemma Continue(clock: int, maxRetries: nat, s: State, more: seq<Step>, t: State)
    requires Run(Initial(clock, maxRetries), Start(clock)) == Some(s)
    requires Run(s, more) == Some(t) && NothingLapsed(t)
    ensures Runs(clock, maxRetries, Start(clock) + more) && After(clock, maxRetries, Start(clock) + more) == t
  {
    RunAppends(Initial(clock, maxRetries), Start(clock), s, more);
  }

  /** The server rotates, the database fails, and the retry presents the retired token. */
  lemma StoreErrorReplays(clock: int, maxRetries: nat)
    requires maxRetries > 0
    ensures var steps := Start(clock) + ([ServerAnswers(0, Rotates(1))] + [StoreFails(0), ServerAnswers(0, Rotates(2))]);
      Runs(clock, maxRetries, steps) && Revoked(After(clock, maxRetries, steps).server, 0)
  {
    var s := Starts(clock, maxRetries);
    var t := Apply(s, ServerAnswers(0, Rotates(1)));
    hide Run, Lock.Observe, Lock.OnTime;
    var u := Apply(t, StoreFails(0));
    ThreeSteps(s, ServerAnswers(0, Rotates(1)), StoreFails(0), ServerAnswers(0, Rotates(2)));
    Continue(clock, maxRetries, s, [ServerAnswers(0, Rotates(1))] + [StoreFails(0), ServerAnswers(0, Rotates(2))],
             Apply(u, ServerAnswers(0, Rotates(2))));
  }

  function Failures(n: nat): seq<Step> {
    seq(n, _ => ServerUnavailable(0))
  }

  lemma {:induction false} FailuresUseUpAttempts(s: State, n: nat) returns (t: State)
    requires |s.pcs| == 1 == |s.lock.sections| && s.pcs[0].Refreshing? && s.pcs[0].attempt == 0 && n <= s.maxRetries
    ensures Run(s, Failures(n)) == Some(t) && t == s.(pcs := [Refreshing(s.pcs[0].snapshot, n)])
  {
    if n == 0 {
      t := s;
      assert Failures(0) == [];
    } else {
      var u := FailuresUseUpAttempts(s, n - 1);
      t := Apply(u, ServerUnavailable(0));
      Extend(s, Failures(n - 1), u, ServerUnavailable(0));
      assert Failures(n - 1) + [ServerUnavailable(0)] == Failures(n);
    }
  }

  /** After enough transient failures there is no retry: the rotated token is lost with the failing write. */
  lemma LastStoreErrorStrands(clock: int, maxRetries: nat)
    ensures var steps := Start(clock) + (Failures(maxRetries) + ([ServerAnswers(0, Rotates(1))] + [StoreFails(0)]));
      Runs(clock, maxRetries, steps) && Stranded(After(clock, maxRetries, steps))
  {
    var s := Starts(clock, maxRetries);
    hide Run, Lock.Observe, Lock.OnTime, Failures;
    var t := FailuresUseUpAttempts(s, maxRetries);
    var u := Apply(t, ServerAnswers(0, Rotates(1)));
    TwoSteps(t, ServerAnswers(0, Rotates(1)), StoreFails(0));
    RunAppends(s, Failures(maxRetries), t, [ServerAnswers(0, Rotates(1))] + [StoreFails(0)]);
    Continue(clock, maxRetries, s, Failures(maxRetries) + ([ServerAnswers(0, Rotates(1))] + [StoreFails(0)]), Apply(u, StoreFails(0)));
  }

  /** An answer that withdraws the refresh token: storing the answer keeps the withdrawn one. */
  lemma WithheldTokenStrands(clock: int, maxRetries: nat)
    ensures var steps := Start(clock) + ([ServerAnswers(0, Withholds(1))] + [Persist(0)]);
      Runs(clock, maxRetries, steps) && Stranded(After(clock, maxRetries, steps))
  {
    var s := Starts(clock, maxRetries);
    var t := Apply(s, ServerAnswers(0, Withholds(1)));
    hide Run, Lock.Observe, Lock.OnTime;
    TwoSteps(s, ServerAnswers(0, Withholds(1)), Persist(0));
    Continue(clock, maxRetries, s, [ServerAnswers(0, Withholds(1))] + [Persist(0)], Apply(t, Persist(0)));
  }

  // ----- ... and those in which a second code exchange comes between ---------------------

  /** The second exchange beside the section, in a state reached from the start. */
  lemma SecondExchange(clock: int, maxRetries: nat, s: State, before: seq<Step>, t: State, offer: Offer) returns (u: State)
    requires Run(Initial(clock, maxRetries), Start(clock)) == Some(s) && Run(s, before) == Some(t)
    requires |t.pcs| == |t.lock.sections| && |t.exchanges| == 1
    requires 1 !in t.consumed && 1 !in t.server.grants && offer.freshRefresh !in t.server.index
    ensures Run(s, before + Exchanging(1, 1, offer)) == Some(u)
    ensures var answer := ExchangeCode(t.server, 1, offer);
      && u.pcs == t.pcs && u.lock == t.lock && u.maxRetries == t.maxRetries
      && u.server == answer.server && u.row == Merge(t.row, answer.tokens.value)
  {
    u := ExchangeRuns(t, 1, offer);
    RunAppends(s, before, t, Exchanging(1, 1, offer));
  }

  /** A refreshless exchange is stored before a rotated token is. */
  lemma ExchangeOvertakesAnswer(clock: int, maxRetries: nat)
    ensures var steps := Start(clock) + (([ServerAnswers(0, Rotates(1))] + Exchanging(1, 1, Withholds(2))) + [Persist(0)]);
      Runs(clock, maxRetries, steps) && Stranded(After(clock, maxRetries, steps))
  {
    var s := Starts(clock, maxRetries);
    var t := Apply(s, ServerAnswers(0, Rotates(1)));
    hide Run, Lock.Observe, Lock.OnTime, Exchanging;
    OneStep(s, ServerAnswers(0, Rotates(1)));
    var u := SecondExchange(clock, maxRetries, s, [ServerAnswers(0, Rotates(1))], t, Withholds(2));
    Extend(s, [ServerAnswers(0, Rotates(1))] + Exchanging(1, 1, Withholds(2)), u, Persist(0));
    Continue(clock, maxRetries, s, ([ServerAnswers(0, Rotates(1))] + Exchanging(1, 1, Withholds(2))) + [Persist(0)], Apply(u, Persist(0)));
  }

  /** ... or while the request that will rotate it is on its way. */
  lemma ExchangeOvertakesRequest(clock: int, maxRetries: nat)
    ensures var steps := Start(clock) + (([] + Exchanging(1, 1, Withholds(2))) + ([ServerAnswers(0, Rotates(1))] + [Persist(0)]));
      Runs(clock, maxRetries, steps) && Stranded(After(clock, maxRetries, steps))
  {
    var s := Starts(clock, maxRetries);
    assert Run(s, []) == Some(s);
    hide Run, Lock.Observe, Lock.OnTime, Exchanging;
    var u := SecondExchange(clock, maxRetries, s, [], s, Withholds(2));
    var before, more := [] + Exchanging(1, 1, Withholds(2)), [ServerAnswers(0, Rotates(1))] + [Persist(0)];
    TwoSteps(u, ServerAnswers(0, Rotates(1)), Persist(0));
    RunAppends(s, before, u, more);
    Continue(clock, maxRetries, s, before + more, Apply(Apply(u, ServerAnswers(0, Rotates(1))), Persist(0)));
  }

  lemma RetryRotatesForNothing(u: State, maxRetries: nat, clock: int) returns (t: State)
    requires |u.lock.sections| == 1 && u.maxRetries == maxRetries > 0
    requires |u.pcs| == 1 && u.pcs[0].Answered? && u.pcs[0].snapshot == FirstRow(clock) && u.pcs[0].attempt == 0
    requires u.row.version == 3 && u.row.refresh == Some(0)
    requires 3 !in u.server.index && 0 in u.server.index && u.server.index[0] == 0
    requires 0 in u.server.grants && u.server.grants[0] == Grant(Some(0), {}, false)
    ensures Run(u, [StoreFails(0)] + [ServerAnswers(0, Rotates(3)), Persist(0)]) == Some(t)
    ensures t.lock == u.lock && Stranded(t)
  {
    var v := Apply(u, StoreFails(0));
    var w := Apply(v, ServerAnswers(0, Rotates(3)));
    t := Apply(w, Persist(0));
    hide Run;
    ThreeSteps(u, StoreFails(0), ServerAnswers(0, Rotates(3)), Persist(0));
  }

  /** The row has moved on and still holds the token a retry then has rotated for nothing. */
  lemma RetryBehindExchangeStrands(clock: int, maxRetries: nat)
    requires maxRetries > 0
    ensures var steps := Start(clock) + (([ServerAnswers(0, Keeps(1))] + Exchanging(1, 1, Withholds(2)))
                + ([StoreFails(0)] + [ServerAnswers(0, Rotates(3)), Persist(0)]));
      Runs(clock, maxRetries, steps) && Stranded(After(clock, maxRetries, steps))
  {
    var s := Starts(clock, maxRetries);
    var t := Apply(s, ServerAnswers(0, Keeps(1)));
    hide Run, Lock.Observe, Lock.OnTime, Exchanging, Stranded;
    OneStep(s, ServerAnswers(0, Keeps(1)));
    var u := SecondExchange(clock, maxRetries, s, [ServerAnswers(0, Keeps(1))], t, Withholds(2));
    hide Apply, Enabled;
    var before, more := [ServerAnswers(0, Keeps(1))] + Exchanging(1, 1, Withholds(2)), [StoreFails(0)] + [ServerAnswers(0, Rotates(3)), Persist(0)];
    var v := RetryRotatesForNothing(u, maxRetries, clock);
    RunAppends(s, before, u, more);
    Continue(clock, maxRetries, s, before + more, v);
  }

  /** The row has moved on to another grant, and the retry presents the token that was withdrawn. */
  lemma WithheldTokenReplays(clock: int, maxRetries: nat)
    requires maxRetries > 0
    ensures var steps := Start(clock) + (([] + Exchanging(1, 1, Rotates(1)))
                + ([ServerAnswers(0, Withholds(2))] + [StoreFails(0), ServerAnswers(0, Rotates(3))]));
      Runs(clock, maxRetries, steps) && Revoked(After(clock, maxRetries, steps).server, 0)
  {
    var s := Starts(clock, maxRetries);
    assert Run(s, []) == Some(s);
    hide Run, Lock.Observe, Lock.OnTime, Exchanging;
    var u := SecondExchange(clock, maxRetries, s, [], s, Rotates(1));
    var before, more := [] + Exchanging(1, 1, Rotates(1)), [ServerAnswers(0, Withholds(2))] + [StoreFails(0), ServerAnswers(0, Rotates(3))];
    ThreeSteps(u, ServerAnswers(0, Withholds(2)), StoreFails(0), ServerAnswers(0, Rotates(3)));
    RunAppends(s, before, u, more);
    Continue(clock, maxRetries, s, before + more, Apply(Apply(Apply(u, ServerAnswers(0, Withholds(2))), StoreFails(0)), ServerAnswers(0, Rotates(3))));
  }

  // ----- a lease lapses -----------------------------------------------------------------

  lemma TickMakesRowFree(s: State, clock: int, maxRetries: nat) returns (t: State)
    requires Started(s, clock, maxRetries)
    ensures Enabled(s, LockStep(Lock.Tick(LEASE_MS))) && t == Apply(s, LockStep(Lock.Tick(LEASE_MS)))
    ensures t == s.(lock := t.lock) && |t.lock.sections| == 1 && Lock.Observe(t.lock) == t.lock
    ensures t.lock.clock == clock + LEASE_MS && Lock.CanAcquire(t.lock.rows, REFRESH_KEY, t.lock.clock)
  {
    t := Apply(s, LockStep(Lock.Tick(LEASE_MS)));
    Lock.ObservedOnce(Lock.Effect(s.lock, Lock.Tick(LEASE_MS)));
  }

  /** Behind a lapsed lease a second replica presents the same token, and the grant is revoked. */
  lemma TwoRefreshersReplay(clock: int, maxRetries: nat)
    ensures var steps := Start(clock) + (([LockStep(Lock.Tick(LEASE_MS))] + Entering(1, 1))
                + ([ServerAnswers(0, Rotates(1))] + [ServerAnswers(1, Rotates(2))]));
      var after := Run(Initial(clock, maxRetries), steps);
      after.Some? && Revoked(after.value.server, 0)
  {
    hide Run, Lock.Observe, Lock.OnTime, Entering, Start;
    var s := Starts(clock, maxRetries);
    var t := TickMakesRowFree(s, clock, maxRetries);
    OneStep(s, LockStep(Lock.Tick(LEASE_MS)));
    var u := EntersToRefresh(t, 1);
    RunAppends(s, [LockStep(Lock.Tick(LEASE_MS))], t, Entering(1, 1));
    var before, more := [LockStep(Lock.Tick(LEASE_MS))] + Entering(1, 1), [ServerAnswers(0, Rotates(1))] + [ServerAnswers(1, Rotates(2))];
    TwoSteps(u, ServerAnswers(0, Rotates(1)), ServerAnswers(1, Rotates(2)));
    RunAppends(s, before, u, more);
    RunAppends(Initial(clock, maxRetries), Start(clock), s, before + more);
  }
}
