/**
 * What the lock adds to the compare-and-swap: as long as no lease lapses, no
 * refresh ever presents a rotated refresh token, so the grant is never revoked
 * for replay (section 4.14.2 of RFC 9700), and whenever no refresh is in flight
 * the stored refresh token is the current one of its grant.
 */
module RefreshSafety {
  import opened Wrappers
  import opened TokenRefresh
  import Lock = LeaseLock
  import Chain = TokenChain

  predicate Inside(pc: Pc) {
    !pc.Queued? && !pc.Leaving?
  }

  predicate InFlight(pc: Pc) {
    pc.Refreshing? || pc.Answered?
  }

  predicate RefreshInFlight(s: State) {
    exists i :: 0 <= i < |s.pcs| && InFlight(s.pcs[i])
  }

  // ----- the invariant ---------------------------------------------------------------

  ghost predicate LockOk(s: State) {
    && Lock.Sound(s.lock)
    && |s.pcs| == |s.lock.sections|
    && (forall i :: 0 <= i < |s.pcs| ==>
          && s.lock.sections[i].key == REFRESH_KEY
          && (Inside(s.pcs[i]) ==> s.lock.sections[i].phase.Running?))
  }

  /** No lease has lapsed before its row was deleted. */
  ghost predicate NothingLapsed(s: State) {
    Lock.OnTime(s.lock, REFRESH_KEY)
  }

  ghost predicate ServerOk(server: Server) {
    && (forall t :: t in server.index ==> server.index[t] in server.grants)
    && (forall id :: id in server.grants ==>
          && !server.grants[id].revoked
          && (server.grants[id].current.Some? ==>
                && server.grants[id].current.value in server.index
                && server.index[server.grants[id].current.value] == id))
  }

  /** The row still holds what the section read, or a token that is current anyway. */
  ghost predicate RowSince(s: State, snapshot: Row) {
    && snapshot.refresh.Some? && snapshot.refresh.value in s.server.index
    && snapshot.version <= s.row.version
    && (snapshot.version == s.row.version ==> s.row.refresh == snapshot.refresh)
    && (snapshot.version < s.row.version ==> s.row.refresh.Some? && Current(s.server, s.row.refresh.value))
  }

  predicate MovedOn(s: State, snapshot: Row) {
    snapshot.version < s.row.version
  }

  /** The refresh token a section works with is not, or no longer, the current one of its grant. */
  ghost predicate Retired(s: State, snapshot: Row) {
    snapshot.refresh.Some? && !Current(s.server, snapshot.refresh.value)
  }

  /** A section inside the loop with an answer; a new refresh token means that the presented one is retired. */
  ghost predicate LoopOk(s: State, snapshot: Row, tokens: Tokens) {
    RowSince(s, snapshot) && (tokens.refresh.Some? ==> Retired(s, snapshot))
  }

  ghost predicate PcOk(s: State, pc: Pc) {
    match pc
    case Refreshing(snapshot, _) => RowSince(s, snapshot) && !Retired(s, snapshot)
    case Answered(snapshot, _, tokens) =>
      LoopOk(s, snapshot, tokens) && (tokens.refresh.Some? ==> Current(s.server, tokens.refresh.value))
    case Outrun(snapshot, _, tokens) => LoopOk(s, snapshot, tokens)
    case _ => true
  }

  /** Either the stored refresh token is current, or the section that rotated it is about to store. */
  ghost predicate RowOk(s: State) {
    s.row.refresh.Some? ==>
      && s.row.refresh.value in s.server.index
      && (Current(s.server, s.row.refresh.value)
          || exists i :: 0 <= i < |s.pcs| && s.pcs[i].Answered? && s.pcs[i].snapshot.version == s.row.version)
  }

  /** Inside the retry loop. */
  predicate InLoop(pc: Pc) {
    pc.Refreshing? || pc.Answered? || pc.Outrun?
  }

  /** Nobody else knows the refresh token a code exchange has not stored yet. */
  ghost predicate Unshared(s: State, token: Token) {
    && s.row.refresh != Some(token)
    && forall i :: 0 <= i < |s.pcs| && InLoop(s.pcs[i]) ==>
         && s.pcs[i].snapshot.refresh != Some(token)
         && (s.pcs[i].Answered? ==> s.pcs[i].tokens.refresh != Some(token))
  }

  ghost predicate ExchangeOk(s: State, x: Exchange) {
    x.Granted? && x.tokens.refresh.Some? ==>
      Current(s.server, x.tokens.refresh.value) && Unshared(s, x.tokens.refresh.value)
  }

  ghost predicate ExchangesDiffer(s: State) {
    forall d, e :: 0 <= d < e < |s.exchanges| && s.exchanges[d].Granted? && s.exchanges[e].Granted? ==>
      (s.exchanges[d].tokens.refresh.Some? ==> s.exchanges[d].tokens.refresh != s.exchanges[e].tokens.refresh)
  }

  ghost predicate Safe(s: State) {
    && LockOk(s)
    && Chain.Inv(s)
    && ServerOk(s.server)
    && RowOk(s)
    && (forall i :: 0 <= i < |s.pcs| ==> PcOk(s, s.pcs[i]))
    && (forall e :: 0 <= e < |s.exchanges| ==> ExchangeOk(s, s.exchanges[e]))
    && ExchangesDiffer(s)
  }

  /** The row still holds a token that this section's answer has retired, and the section has yet to write. */
  ghost predicate Rotating(s: State, pc: Pc) {
    pc.Answered? && pc.snapshot.version == s.row.version && Retired(s, pc.snapshot)
  }

  /**
   * The steps that lose a rotation:
   *  - a database error behind an answer that retired the token: one that is retried,
   *    and one on the last attempt while the row still holds that token;
   *  - storing a code exchange that brought no refresh token over a row that holds a
   *    retired one, before the section with the answer has written;
   *  - an answer that retires the token for a section whose row has moved on and still
   *    holds it, so that the section cannot store the new one;
   *  - storing an answer that withdrew the refresh token without issuing another.
   */
  ghost predicate Hazard(s: State, step: Step) {
    match step
    case StoreFails(i) =>
      && i < |s.pcs| && (s.pcs[i].Answered? || s.pcs[i].Outrun?)
      && if s.pcs[i].attempt < s.maxRetries then Retired(s, s.pcs[i].snapshot) else Rotating(s, s.pcs[i])
    case StoreExchange(e) =>
      && e < |s.exchanges| && s.exchanges[e].Granted? && s.exchanges[e].tokens.refresh.None?
      && s.exchanges[e].snapshot.version == s.row.version
      && exists i :: 0 <= i < |s.pcs| && Rotating(s, s.pcs[i])
    case ServerAnswers(i, offer) =>
      && i < |s.pcs| && s.pcs[i].Refreshing? && (offer.issuesRefresh ==> offer.rotates)
      && MovedOn(s, s.pcs[i].snapshot) && s.row.refresh == s.pcs[i].snapshot.refresh
    case Persist(i) => i < |s.pcs| && Rotating(s, s.pcs[i]) && s.pcs[i].tokens.refresh.None?
    case _ => false
  }

  lemma OnlyOneInside(s: State, i: nat, j: nat)
    requires LockOk(s) && NothingLapsed(s)
    requires i < |s.pcs| && j < |s.pcs| && Inside(s.pcs[i]) && Inside(s.pcs[j])
    ensures i == j
  {
    assert Lock.Holds(s.lock.sections[i]) && Lock.Holds(s.lock.sections[j]);
  }

  lemma NobodyElseInside(s: State, i: nat)
    requires LockOk(s) && NothingLapsed(s) && i < |s.pcs| && Inside(s.pcs[i])
    ensures forall j :: 0 <= j < |s.pcs| && Inside(s.pcs[j]) ==> j == i
  {
    forall j | 0 <= j < |s.pcs| && Inside(s.pcs[j]) ensures j == i { OnlyOneInside(s, i, j); }
  }

  // ----- one step at a time ----------------------------------------------------------

  lemma LockStepSafe(s: State, l: Lock.Step)
    requires Safe(s) && Enabled(s, LockStep(l))
    ensures Safe(Apply(s, LockStep(l)))
  {
    var t := Apply(s, LockStep(l));
    Chain.StepKeepsInv(s, LockStep(l));
    LockStepFrame(s, l);
    PcsOnlyEnter(s, t);
  }

  lemma LockStepFrame(s: State, l: Lock.Step)
    requires LockOk(s) && Enabled(s, LockStep(l))
    ensures var t := Apply(s, LockStep(l));
      && LockOk(t) && t.row == s.row && t.server == s.server && t.exchanges == s.exchanges
      && |s.pcs| <= |t.pcs|
      && (forall i :: 0 <= i < |s.pcs| ==> t.pcs[i] == s.pcs[i] || (!Inside(s.pcs[i]) && t.pcs[i].Entered?))
      && (forall i :: |s.pcs| <= i < |t.pcs| ==> t.pcs[i].Queued?)
  {
    Lock.StepKeepsSound(s.lock, l);
  }

  lemma PcsOnlyEnter(s: State, t: State)
    requires Safe(s) && LockOk(t) && Chain.Inv(t)
    requires t.row == s.row && t.server == s.server && t.exchanges == s.exchanges
    requires |s.pcs| <= |t.pcs|
    requires forall i :: 0 <= i < |s.pcs| ==> t.pcs[i] == s.pcs[i] || (!Inside(s.pcs[i]) && t.pcs[i].Entered?)
    requires forall i :: |s.pcs| <= i < |t.pcs| ==> t.pcs[i].Queued?
    ensures Safe(t)
  {
    forall i | 0 <= i < |t.pcs| ensures PcOk(t, t.pcs[i]) {
      assert i < |s.pcs| ==> PcOk(s, s.pcs[i]);
    }
    forall e | 0 <= e < |t.exchanges| ensures ExchangeOk(t, t.exchanges[e]) {
      assert ExchangeOk(s, s.exchanges[e]);
    }
    if s.row.refresh.Some? && !Current(s.server, s.row.refresh.value) {
      var i :| 0 <= i < |s.pcs| && s.pcs[i].Answered? && s.pcs[i].snapshot.version == s.row.version;
      assert t.pcs[i] == s.pcs[i];
    }
  }

  /** One section moves on; the row keeps its token columns and the server is untouched. */
  lemma OnePcMoves(s: State, t: State, i: nat, pc: Pc)
    requires Safe(s) && i < |s.pcs| && Inside(s.pcs[i])
    requires t.pcs == s.pcs[i := pc] && t.lock == s.lock && t.server == s.server && t.exchanges == s.exchanges
    requires Chain.SameTokens(t.row, s.row) && Chain.Inv(t)
    requires PcOk(s, pc) && !pc.Answered?
    requires s.pcs[i].Answered? ==> s.row.refresh.Some? && Current(s.server, s.row.refresh.value)
    requires InLoop(pc) ==> pc.snapshot.refresh == s.row.refresh || (InLoop(s.pcs[i]) && pc.snapshot == s.pcs[i].snapshot)
    ensures Safe(t)
  {
    forall j | 0 <= j < |t.pcs| ensures PcOk(t, t.pcs[j]) {
      assert PcOk(s, s.pcs[j]);
    }
    forall e | 0 <= e < |t.exchanges| ensures ExchangeOk(t, t.exchanges[e]) {
      assert ExchangeOk(s, s.exchanges[e]);
    }
    if s.row.refresh.Some? && !Current(s.server, s.row.refresh.value) {
      var j :| 0 <= j < |s.pcs| && s.pcs[j].Answered? && s.pcs[j].snapshot.version == s.row.version;
      assert t.pcs[j] == s.pcs[j];
    }
  }

  lemma NobodyElseAnswered(s: State, i: nat)
    requires Safe(s) && NothingLapsed(s) && i < |s.pcs| && Inside(s.pcs[i]) && !s.pcs[i].Answered?
    ensures s.row.refresh.Some? ==> Current(s.server, s.row.refresh.value)
  {
    if s.row.refresh.Some? && !Current(s.server, s.row.refresh.value) {
      var j :| 0 <= j < |s.pcs| && s.pcs[j].Answered? && s.pcs[j].snapshot.version == s.row.version;
      OnlyOneInside(s, i, j);
    }
  }

  lemma RereadSafe(s: State, i: nat, headroom: int)
    requires Safe(s) && NothingLapsed(s) && Enabled(s, Reread(i, headroom))
    ensures Safe(Apply(s, Reread(i, headroom)))
  {
    Chain.StepKeepsInv(s, Reread(i, headroom));
    NobodyElseAnswered(s, i);
    OnePcMoves(s, Apply(s, Reread(i, headroom)), i, Apply(s, Reread(i, headroom)).pcs[i]);
  }

  lemma QuietStepsSafe(s: State, step: Step)
    requires Safe(s) && NothingLapsed(s) && Enabled(s, step)
    requires step.GiveUp? || step.ServerUnavailable? || step.ReadBack? || (step.StoreFails? && !Hazard(s, step))
    ensures Safe(Apply(s, step))
  {
    Chain.StepKeepsInv(s, step);
    assert PcOk(s, s.pcs[step.section]);
    OnePcMoves(s, Apply(s, step), step.section, Apply(s, step).pcs[step.section]);
  }

  // ----- the server's answers --------------------------------------------------------

  /** Presenting a current token never revokes, and leaves the current tokens of other grants alone. */
  lemma RefreshAnswers(server: Server, presented: Token, offer: Offer)
    requires ServerOk(server) && Current(server, presented)
    requires offer.freshRefresh !in server.index
    ensures var answer := Refresh(server, presented, offer);
      && answer.tokens.Some? && ServerOk(answer.server)
      && (forall t :: t in server.index ==> t in answer.server.index)
      && (forall t :: Current(server, t) && t != presented ==> Current(answer.server, t))
      && (match answer.tokens.value.refresh
          case Some(t) => t == offer.freshRefresh && Current(answer.server, t) && !Current(answer.server, presented)
          case None => if offer.issuesRefresh then answer.server == server else !Current(answer.server, presented))
  {
  }

  lemma ExchangeAnswers(server: Server, id: GrantId, offer: Offer)
    requires ServerOk(server) && id !in server.grants && offer.freshRefresh !in server.index
    ensures var answer := ExchangeCode(server, id, offer);
      && answer.tokens.Some? && ServerOk(answer.server)
      && (forall t :: t in server.index ==> t in answer.server.index)
      && (forall t :: Current(server, t) ==> Current(answer.server, t))
      && (forall t :: t in server.index && Current(answer.server, t) ==> Current(server, t))
      && (answer.tokens.value.refresh.Some? ==>
            answer.tokens.value.refresh.value == offer.freshRefresh && Current(answer.server, offer.freshRefresh))
  {
  }

  lemma ServerAnswersShape(s: State, i: nat, offer: Offer)
    requires Enabled(s, ServerAnswers(i, offer)) && s.pcs[i].snapshot.refresh.Some?
    ensures var pc := s.pcs[i];
            var answer := Refresh(s.server, pc.snapshot.refresh.value, offer);
            var t := Apply(s, ServerAnswers(i, offer));
            && t.server == answer.server && t.lock == s.lock && t.exchanges == s.exchanges
            && (answer.tokens.Some? ==>
                  t.row == s.row && t.pcs == s.pcs[i := Answered(pc.snapshot, pc.attempt, answer.tokens.value)])
  {
  }

  lemma ServerAnswersSafe(s: State, i: nat, offer: Offer)
    requires Safe(s) && NothingLapsed(s) && Enabled(s, ServerAnswers(i, offer)) && !Hazard(s, ServerAnswers(i, offer))
    ensures Safe(Apply(s, ServerAnswers(i, offer)))
  {
    var t := Apply(s, ServerAnswers(i, offer));
    var snapshot := s.pcs[i].snapshot;
    Chain.StepKeepsInv(s, ServerAnswers(i, offer));
    assert PcOk(s, s.pcs[i]);
    RefreshAnswers(s.server, snapshot.refresh.value, offer);
    ServerAnswersShape(s, i, offer);
    NobodyElseAnswered(s, i);
    NobodyElseInside(s, i);
    forall j | 0 <= j < |t.pcs| ensures PcOk(t, t.pcs[j]) {}
    assert t.pcs[i].Answered? && t.pcs[i].snapshot == snapshot;
    forall e | 0 <= e < |t.exchanges| ensures ExchangeOk(t, t.exchanges[e]) {
      assert ExchangeOk(s, s.exchanges[e]);
    }
  }

  // ----- storing ---------------------------------------------------------------------

  lemma PersistSafe(s: State, i: nat)
    requires Safe(s) && NothingLapsed(s) && Enabled(s, Persist(i)) && !Hazard(s, Persist(i))
    ensures Safe(Apply(s, Persist(i)))
  {
    var t := Apply(s, Persist(i));
    Chain.StepKeepsInv(s, Persist(i));
    assert PcOk(s, s.pcs[i]);
    if s.row.version != s.pcs[i].snapshot.version {
      OnePcMoves(s, t, i, t.pcs[i]);
    } else {
      NobodyElseInside(s, i);
      forall j | 0 <= j < |t.pcs| ensures PcOk(t, t.pcs[j]) {}
      forall e | 0 <= e < |t.exchanges| ensures ExchangeOk(t, t.exchanges[e]) {
        assert ExchangeOk(s, s.exchanges[e]);
      }
    }
  }

  /** A code exchange replaces the stored token by one of a grant nobody else has seen. */
  lemma StoredExchangeSafe(s: State, t: State, e: nat)
    requires Safe(s) && e < |s.exchanges| && s.exchanges[e].Granted? && s.exchanges[e].tokens.refresh.Some?
    requires t.pcs == s.pcs && t.lock == s.lock && t.server == s.server && t.exchanges == s.exchanges[e := Closed(true)]
    requires t.row.refresh == s.exchanges[e].tokens.refresh && t.row.version == s.row.version + 1 && Chain.Inv(t)
    ensures Safe(t)
  {
    var x := s.exchanges[e];
    assert ExchangeOk(s, x);
    forall j | 0 <= j < |t.pcs| ensures PcOk(t, t.pcs[j]) {
      assert PcOk(s, s.pcs[j]);
    }
    forall d | 0 <= d < |t.exchanges| ensures ExchangeOk(t, t.exchanges[d]) {
      assert ExchangeOk(s, s.exchanges[d]);
    }
  }

  /** The refresh token survives, and nobody is rotating it if the row moved on. */
  lemma RowKeptSafe(s: State, t: State)
    requires Safe(s) && t.pcs == s.pcs && t.lock == s.lock && t.server == s.server && |t.exchanges| >= |s.exchanges|
    requires forall e :: 0 <= e < |s.exchanges| ==> t.exchanges[e] == s.exchanges[e] || !t.exchanges[e].Granted?
    requires forall e :: |s.exchanges| <= e < |t.exchanges| ==> !t.exchanges[e].Granted?
    requires t.row.refresh == s.row.refresh && Chain.Inv(t)
    requires t.row.version == s.row.version
          || (t.row.version == s.row.version + 1 && forall i :: 0 <= i < |s.pcs| ==> !Rotating(s, s.pcs[i]))
    ensures Safe(t)
  {
    forall j | 0 <= j < |t.pcs| ensures PcOk(t, t.pcs[j]) {
      assert PcOk(s, s.pcs[j]);
    }
    forall d | 0 <= d < |t.exchanges| ensures ExchangeOk(t, t.exchanges[d]) {
      assert d < |s.exchanges| ==> ExchangeOk(s, s.exchanges[d]);
    }
  }

  lemma StoreExchangeShape(s: State, e: nat)
    requires Chain.Inv(s) && Enabled(s, StoreExchange(e))
    ensures var t, x := Apply(s, StoreExchange(e)), s.exchanges[e];
            && t.pcs == s.pcs && t.lock == s.lock && t.server == s.server
            && t.exchanges == s.exchanges[e := Closed(s.row.version == x.snapshot.version)]
            && (s.row.version == x.snapshot.version ==>
                  t.row.version == s.row.version + 1 && t.row.refresh == Kept(s.row, x.tokens))
            && (s.row.version != x.snapshot.version ==> t.row == s.row)
  {
    assert Chain.ExchangeOk(s, s.exchanges[e]);
  }

  lemma StoreExchangeSafe(s: State, e: nat)
    requires Safe(s) && Enabled(s, StoreExchange(e)) && !Hazard(s, StoreExchange(e))
    ensures Safe(Apply(s, StoreExchange(e)))
  {
    Chain.StepKeepsInv(s, StoreExchange(e));
    StoreExchangeShape(s, e);
    var x := s.exchanges[e];
    if s.row.version == x.snapshot.version && x.tokens.refresh.Some? {
      StoredExchangeSafe(s, Apply(s, StoreExchange(e)), e);
    } else {
      RowKeptSafe(s, Apply(s, StoreExchange(e)));
    }
  }

  lemma CodeAcceptedSafe(s: State, e: nat, id: GrantId, offer: Offer)
    requires Safe(s) && Enabled(s, CodeAccepted(e, id, offer))
    ensures Safe(Apply(s, CodeAccepted(e, id, offer)))
  {
    var t := Apply(s, CodeAccepted(e, id, offer));
    Chain.StepKeepsInv(s, CodeAccepted(e, id, offer));
    ExchangeAnswers(s.server, id, offer);
    forall j | 0 <= j < |t.pcs| ensures PcOk(t, t.pcs[j]) {
      assert PcOk(s, s.pcs[j]);
    }
    forall d | 0 <= d < |t.exchanges| ensures ExchangeOk(t, t.exchanges[d]) {
      assert ExchangeOk(s, s.exchanges[d]);
    }
  }

  /** Exchanges that have not reached the server, and status updates. */
  lemma OtherStepsSafe(s: State, step: Step)
    requires Safe(s) && Enabled(s, step)
    requires step.ReadForExchange? || step.Consume? || step.CodeRefused? || step.SetStatus?
    ensures Safe(Apply(s, step))
  {
    Chain.StepKeepsInv(s, step);
    RowKeptSafe(s, Apply(s, step));
  }

  lemma StepKeepsSafe(s: State, step: Step)
    requires Safe(s) && NothingLapsed(s) && Enabled(s, step) && !Hazard(s, step)
    ensures Safe(Apply(s, step))
  {
    match step
    case LockStep(l) => LockStepSafe(s, l);
    case Reread(i, headroom) => RereadSafe(s, i, headroom);
    case ServerAnswers(i, offer) => ServerAnswersSafe(s, i, offer);
    case Persist(i) => PersistSafe(s, i);
    case StoreExchange(e) => StoreExchangeSafe(s, e);
    case CodeAccepted(e, id, offer) => CodeAcceptedSafe(s, e, id, offer);
    case GiveUp(_) => QuietStepsSafe(s, step);
    case ServerUnavailable(_) => QuietStepsSafe(s, step);
    case ReadBack(_) => QuietStepsSafe(s, step);
    case StoreFails(_) => QuietStepsSafe(s, step);
    case ReadForExchange(_) => OtherStepsSafe(s, step);
    case Consume(_) => OtherStepsSafe(s, step);
    case CodeRefused(_) => OtherStepsSafe(s, step);
    case SetStatus(_) => OtherStepsSafe(s, step);
  }

  // ----- runs ------------------------------------------------------------------------

  ghost predicate WithoutHazards(s: State, steps: seq<Step>) {
    steps == [] || (
      && WithoutHazards(s, steps[..|steps| - 1])
      && match Run(s, steps[..|steps| - 1])
         case None => true
         case Some(t) => !Hazard(t, steps[|steps| - 1]))
  }

  lemma LapsesAreRemembered(s: State, step: Step)
    requires Enabled(s, step) && NothingLapsed(Apply(s, step))
    ensures NothingLapsed(s)
  {
    if step.LockStep? { Lock.OnTimeBefore(s.lock, step.step, REFRESH_KEY); }
  }

  lemma {:induction false} RunKeepsSafe(s: State, steps: seq<Step>)
    requires Safe(s) && Run(s, steps).Some? && WithoutHazards(s, steps)
    requires NothingLapsed(Run(s, steps).value)
    ensures Safe(Run(s, steps).value)
    decreases |steps|
  {
    if steps != [] {
      var t, last := Run(s, steps[..|steps| - 1]).value, steps[|steps| - 1];
      LapsesAreRemembered(t, last);
      RunKeepsSafe(s, steps[..|steps| - 1]);
      StepKeepsSafe(t, last);
    }
  }

  /**
   * No replay, and nothing left behind: over every run of refreshes and code
   * exchanges on any number of replicas whose leases did not lapse, no grant has
   * been revoked, the next refresh of any section presents a current token, and
   * with no refresh in flight the stored refresh token is current.
   */
  lemma RefreshIsSafe(clock: int, maxRetries: nat, steps: seq<Step>)
    requires Run(Initial(clock, maxRetries), steps).Some?
    requires WithoutHazards(Initial(clock, maxRetries), steps)
    requires NothingLapsed(Run(Initial(clock, maxRetries), steps).value)
    ensures var s := Run(Initial(clock, maxRetries), steps).value;
      && (forall id :: id in s.server.grants ==> !s.server.grants[id].revoked)
      && (forall i: nat, offer :: Enabled(s, ServerAnswers(i, offer)) ==>
            s.pcs[i].snapshot.refresh.Some? && Current(s.server, s.pcs[i].snapshot.refresh.value))
      && (!RefreshInFlight(s) && s.row.refresh.Some? ==> Current(s.server, s.row.refresh.value))
  {
    RunKeepsSafe(Initial(clock, maxRetries), steps);
    var s := Run(Initial(clock, maxRetries), steps).value;
    forall i: nat, offer | Enabled(s, ServerAnswers(i, offer))
      ensures s.pcs[i].snapshot.refresh.Some? && Current(s.server, s.pcs[i].snapshot.refresh.value)
    {
      assert PcOk(s, s.pcs[i]);
    }
  }

  // ----- every hazard does harm ----------------------------------------------------------

  lemma OneStep(s: State, a: Step)
    requires Enabled(s, a)
    ensures Run(s, [a]) == Some(Apply(s, a))
  {
    assert Run(s, []) == Some(s);
    Extend(s, [], s, a);
    assert [] + [a] == [a];
  }

  lemma TwoSteps(s: State, a: Step, b: Step)
    requires Enabled(s, a) && Enabled(Apply(s, a), b)
    ensures Run(s, [a] + [b]) == Some(Apply(Apply(s, a), b))
  {
    OneStep(s, a);
    Extend(s, [a], Apply(s, a), b);
  }

  lemma ThreeSteps(s: State, a: Step, b: Step, c: Step)
    requires Enabled(s, a) && Enabled(Apply(s, a), b) && Enabled(Apply(Apply(s, a), b), c)
    ensures Run(s, [a] + [b, c]) == Some(Apply(Apply(Apply(s, a), b), c))
  {
    TwoSteps(s, a, b);
    Extend(s, [a] + [b], Apply(Apply(s, a), b), c);
    assert [a] + [b] + [c] == [a] + [b, c];
  }

  lemma Extend(s: State, steps: seq<Step>, t: State, step: Step)
    requires Run(s, steps) == Some(t) && Enabled(t, step)
    ensures Run(s, steps + [step]) == Some(Apply(t, step))
  {
    assert (steps + [step])[..|steps|] == steps;
  }

  lemma {:induction false} RunAppends(s: State, a: seq<Step>, t: State, b: seq<Step>)
    requires Run(s, a) == Some(t)
    ensures Run(s, a + b) == Run(t, b)
    decreases |b|
  {
    if b == [] {
      assert a + b == a;
    } else {
      RunAppends(s, a, t, b[..|b| - 1]);
      assert (a + b)[..|a + b| - 1] == a + b[..|b| - 1];
    }
  }

  /** The grant a refresh token belongs to has been revoked. */
  ghost predicate Revoked(server: Server, token: Token) {
    token in server.index && server.index[token] in server.grants && server.grants[server.index[token]].revoked
  }

  /** Nothing is in flight, and the stored refresh token is not the current one of its grant. */
  ghost predicate Stranded(s: State) {
    !RefreshInFlight(s) && s.row.refresh.Some? && !Current(s.server, s.row.refresh.value)
  }

  ghost predicate Harmed(s: State) {
    Stranded(s) || exists token :: Revoked(s.server, token)
  }

  lemma SafeIsUnharmed(s: State)
    requires Safe(s)
    ensures !Harmed(s)
  {
  }

  lemma RetiredTokenRevokes(server: Server, presented: Token, offer: Offer)
    requires presented in server.index && server.index[presented] in server.grants && !Current(server, presented)
    requires !server.grants[server.index[presented]].revoked
    ensures Refresh(server, presented, offer).tokens.None?
    ensures Revoked(Refresh(server, presented, offer).server, presented)
  {
  }

  /** An answer that rotates to a token nobody has seen; tokens are numbers. */
  lemma RotatingOffer(server: Server) returns (offer: Offer)
    ensures offer.issuesRefresh && offer.rotates && offer.freshRefresh !in server.index
  {
    var unseen := Above(server.index.Keys);
    offer := Offer(unseen, unseen, None, true, true);
  }

  lemma {:induction false} Above(tokens: set<Token>) returns (bound: Token)
    ensures forall t :: t in tokens ==> t < bound
  {
    bound := 0;
    if tokens != {} {
      var t :| t in tokens;
      bound := Above(tokens - {t});
      assert forall u :: u in tokens ==> u == t || u in tokens - {t};
      if bound <= t { bound := t + 1; }
    }
  }

  lemma NobodyElseInFlight(s: State, i: nat)
    requires Safe(s) && NothingLapsed(s) && i < |s.pcs| && Inside(s.pcs[i])
    ensures forall j :: 0 <= j < |s.pcs| && j != i ==> !InFlight(s.pcs[j])
  {
    NobodyElseInside(s, i);
  }

  /** What a failure inside the loop does to its section. */
  lemma StoreFailsShape(s: State, i: nat)
    requires Enabled(s, StoreFails(i))
    ensures var t, pc := Apply(s, StoreFails(i)), s.pcs[i];
            && t.server == s.server && t.row.refresh == s.row.refresh && t.row.version == s.row.version
            && t.lock == s.lock
            && t.pcs == s.pcs[i := if pc.attempt < s.maxRetries then Refreshing(pc.snapshot, pc.attempt + 1) else Leaving(None)]
  {
  }

  lemma PersistShape(s: State, i: nat)
    requires Enabled(s, Persist(i)) && Chain.Inv(s)
    ensures var t, pc := Apply(s, Persist(i)), s.pcs[i];
            && t.server == s.server && t.lock == s.lock
            && (if pc.snapshot.version == s.row.version
                then t.pcs == s.pcs[i := Leaving(Some(pc.tokens.access))] && t.row.refresh == Kept(pc.snapshot, pc.tokens)
                else t.pcs == s.pcs[i := Outrun(pc.snapshot, pc.attempt, pc.tokens)] && t.row == s.row)
  {
  }

  /** A section that stores nothing new leaves a token that is not current behind. */
  lemma LosingStrands(s: State, i: nat)
    requires Enabled(s, Persist(i)) && Chain.Inv(s)
    requires forall j :: 0 <= j < |s.pcs| && j != i ==> !InFlight(s.pcs[j])
    requires s.row.refresh.Some? && !Current(s.server, s.row.refresh.value)
    requires s.pcs[i].snapshot.version != s.row.version || Kept(s.pcs[i].snapshot, s.pcs[i].tokens) == s.row.refresh
    ensures Stranded(Apply(s, Persist(i))) && Apply(s, Persist(i)).lock == s.lock
  {
    PersistShape(s, i);
  }

  /** The steps lead to harm, and no lease lapses on the way. */
  ghost predicate EndsInHarm(s: State, steps: seq<Step>) {
    match Run(s, steps)
    case None => false
    case Some(t) => Harmed(t) && NothingLapsed(t)
  }

  /** After a hazardous step, at most one more, itself no hazard, and harm is done. */
  ghost predicate HarmFollows(s: State, step: Step, more: seq<Step>)
    requires Enabled(s, step)
  {
    |more| <= 1 && WithoutHazards(Apply(s, step), more) && EndsInHarm(s, [step] + more)
  }

  lemma HarmAtOnce(s: State, step: Step)
    requires Enabled(s, step) && Harmed(Apply(s, step)) && NothingLapsed(Apply(s, step))
    ensures HarmFollows(s, step, [])
  {
    OneStep(s, step);
    assert [step] + [] == [step];
  }

  lemma HarmInOne(s: State, step: Step, next: Step)
    requires Enabled(s, step) && Enabled(Apply(s, step), next) && !Hazard(Apply(s, step), next)
    requires var t := Apply(Apply(s, step), next); Harmed(t) && NothingLapsed(t)
    ensures HarmFollows(s, step, [next]) && Run(s, [step] + [next]) == Some(Apply(Apply(s, step), next))
  {
    TwoSteps(s, step, next);
    NothingIsNoHazard(Apply(s, step), next);
  }

  lemma NothingIsNoHazard(t: State, next: Step)
    requires !Hazard(t, next)
    ensures WithoutHazards(t, [next])
  {
    assert [next][..0] == [];
    assert Run(t, []) == Some(t) && WithoutHazards(t, []);
  }

  /** A retry behind an answer that retired the token: the next request revokes the grant. */
  lemma FailedStoreReplays(s: State, i: nat) returns (more: seq<Step>)
    requires Safe(s) && NothingLapsed(s) && Enabled(s, StoreFails(i)) && Hazard(s, StoreFails(i))
    requires s.pcs[i].attempt < s.maxRetries
    ensures HarmFollows(s, StoreFails(i), more)
    ensures Revoked(Run(s, [StoreFails(i)] + more).value.server, s.pcs[i].snapshot.refresh.value)
  {
    var offer := RotatingOffer(s.server);
    var t := Apply(s, StoreFails(i));
    var token := s.pcs[i].snapshot.refresh.value;
    assert PcOk(s, s.pcs[i]);
    StoreFailsShape(s, i);
    ServerAnswersShape(t, i, offer);
    RetiredTokenRevokes(t.server, token, offer);
    assert Revoked(Apply(t, ServerAnswers(i, offer)).server, token);
    more := [ServerAnswers(i, offer)];
    HarmInOne(s, StoreFails(i), ServerAnswers(i, offer));
  }

  lemma FailedStoreStrands(s: State, i: nat)
    requires Safe(s) && NothingLapsed(s) && Enabled(s, StoreFails(i)) && Hazard(s, StoreFails(i))
    requires s.pcs[i].attempt >= s.maxRetries
    ensures HarmFollows(s, StoreFails(i), []) && Stranded(Apply(s, StoreFails(i)))
  {
    assert PcOk(s, s.pcs[i]);
    StoreFailsShape(s, i);
    NobodyElseInFlight(s, i);
    HarmAtOnce(s, StoreFails(i));
  }

  lemma StoredWithdrawalStrands(s: State, i: nat)
    requires Safe(s) && NothingLapsed(s) && Enabled(s, Persist(i)) && Hazard(s, Persist(i))
    ensures HarmFollows(s, Persist(i), []) && Stranded(Apply(s, Persist(i)))
  {
    assert PcOk(s, s.pcs[i]);
    NobodyElseInFlight(s, i);
    LosingStrands(s, i);
    HarmAtOnce(s, Persist(i));
  }

  /** After the exchange the section's own write loses the race. */
  lemma RefreshlessExchangeStrands(s: State, e: nat) returns (more: seq<Step>)
    requires Safe(s) && NothingLapsed(s) && Enabled(s, StoreExchange(e)) && Hazard(s, StoreExchange(e))
    ensures HarmFollows(s, StoreExchange(e), more) && Stranded(Run(s, [StoreExchange(e)] + more).value)
  {
    var i: nat :| i < |s.pcs| && Rotating(s, s.pcs[i]);
    var t := Apply(s, StoreExchange(e));
    assert PcOk(s, s.pcs[i]);
    StoreExchangeShape(s, e);
    NobodyElseInFlight(s, i);
    Chain.StepKeepsInv(s, StoreExchange(e));
    LosingStrands(t, i);
    more := [Persist(i)];
    HarmInOne(s, StoreExchange(e), Persist(i));
  }

  /** A section that has lost its race beforehand has the stored token retired. */
  lemma LateRotationStrands(s: State, i: nat, offer: Offer) returns (more: seq<Step>)
    requires Safe(s) && NothingLapsed(s) && Enabled(s, ServerAnswers(i, offer)) && Hazard(s, ServerAnswers(i, offer))
    ensures HarmFollows(s, ServerAnswers(i, offer), more) && Stranded(Run(s, [ServerAnswers(i, offer)] + more).value)
  {
    var t := Apply(s, ServerAnswers(i, offer));
    assert PcOk(s, s.pcs[i]);
    RefreshAnswers(s.server, s.pcs[i].snapshot.refresh.value, offer);
    ServerAnswersShape(s, i, offer);
    NobodyElseInFlight(s, i);
    Chain.StepKeepsInv(s, ServerAnswers(i, offer));
    LosingStrands(t, i);
    more := [Persist(i)];
    HarmInOne(s, ServerAnswers(i, offer), Persist(i));
  }

  lemma HazardDoesHarm(s: State, step: Step) returns (more: seq<Step>)
    requires Safe(s) && NothingLapsed(s) && Enabled(s, step) && Hazard(s, step)
    ensures HarmFollows(s, step, more)
  {
    match step
    case StoreFails(i) =>
      if s.pcs[i].attempt < s.maxRetries {
        more := FailedStoreReplays(s, i);
      } else {
        FailedStoreStrands(s, i);
        more := [];
      }
    case Persist(i) =>
      StoredWithdrawalStrands(s, i);
      more := [];
    case StoreExchange(e) => more := RefreshlessExchangeStrands(s, e);
    case ServerAnswers(i, offer) => more := LateRotationStrands(s, i, offer);
  }

  /** After a step that is no hazard, no steps without hazards do harm, however many. */
  lemma WithoutHazardsNoHarm(s: State, step: Step, more: seq<Step>)
    requires Safe(s) && NothingLapsed(s) && Enabled(s, step) && !Hazard(s, step)
    requires WithoutHazards(Apply(s, step), more)
    ensures !EndsInHarm(s, [step] + more)
  {
    if EndsInHarm(s, [step] + more) {
      var t := Run(s, [step] + more).value;
      OneStep(s, step);
      RunAppends(s, [step], Apply(s, step), more);
      StepKeepsSafe(s, step);
      RunKeepsSafe(Apply(s, step), more);
      SafeIsUnharmed(t);
    }
  }

  /**
   * The hazards are exactly the harmful steps: from a safe state without lapses, a step
   * is one if and only if it, and then steps that are none, can lead without a lapse to
   * a revoked grant or to a stored refresh token that is not current although nothing
   * is in flight.
   */
  lemma HazardsAreExact(s: State, step: Step)
    requires Safe(s) && NothingLapsed(s) && Enabled(s, step)
    ensures Hazard(s, step) <==> exists more :: WithoutHazards(Apply(s, step), more) && EndsInHarm(s, [step] + more)
  {
    if Hazard(s, step) {
      var more := HazardDoesHarm(s, step);
    } else {
      forall more | WithoutHazards(Apply(s, step), more) ensures !EndsInHarm(s, [step] + more) {
        WithoutHazardsNoHarm(s, step, more);
      }
    }
  }
}
