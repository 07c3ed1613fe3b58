/**
 * The code of one refreshing section (packages/oauth/src/token-manager.ts): the check
 * of the row under the lock and the retry loop. Every run of it, with any steps of
 * other workers at each await, is a run of the protocol, so what is proved of all
 * runs holds of this code.
 */
module RefreshWorker {
  import opened Wrappers
  import opened TokenRefresh
  import Safety = RefreshSafety

  /** What one request to the token endpoint meets, and whether the database then fails. */
  datatype Reply =
    | Unavailable
    | Failed                                       // a failure that is not transient and rotated nothing
    | Answers(offer: Server -> Offer, storeFails: bool, readFails: bool)

  /** A server's answer brings a refresh token it has never issued before. */
  ghost predicate Honest(reply: Reply) {
    reply.Answers? ==>
      forall server :: reply.offer(server).freshRefresh !in server.index
  }

  /** Steps only section `i` itself takes. */
  predicate Own(step: Step, i: nat) {
    match step
    case LockStep(l) => (l.RowAnswer? || l.WorkDone?) && l.section == i
    case Reread(j, _) => j == i
    case GiveUp(j) => j == i
    case ServerAnswers(j, _) => j == i
    case ServerUnavailable(j) => j == i
    case Persist(j) => j == i
    case ReadBack(j) => j == i
    case StoreFails(j) => j == i
    case _ => false
  }

  lemma OthersLeaveSectionAlone(s: State, step: Step, i: nat)
    requires Enabled(s, step) && i < |s.pcs| && !Own(step, i)
    ensures var t := Apply(s, step); i < |t.pcs| && t.pcs[i] == s.pcs[i] && t.maxRetries == s.maxRetries
    ensures |Apply(s, step).pcs| == |Apply(s, step).lock.sections|
  {
  }

  lemma OthersDoNotAsk(s: State, step: Step, i: nat)
    requires !Own(step, i)
    ensures Asked(s, step, i) == []
  {
  }

  lemma OwnStepsKeepCount(s: State, step: Step)
    requires Enabled(s, step) && !step.LockStep?
    ensures |Apply(s, step).pcs| == |s.pcs| == |Apply(s, step).lock.sections| && Apply(s, step).maxRetries == s.maxRetries
  {
  }

  /** The refresh token section `i` presents if this step is one of its requests. */
  function Asked(s: State, step: Step, i: nat): seq<Option<Token>> {
    if (step.ServerAnswers? || step.ServerUnavailable? || step.GiveUp?) && step.section == i && i < |s.pcs| && s.pcs[i].Refreshing?
    then [s.pcs[i].snapshot.refresh] else []
  }

  /** The refresh tokens section `i` has presented in a run, in order. */
  ghost function Presented(start: State, steps: seq<Step>, i: nat): seq<Option<Token>> {
    if steps == [] then [] else
    var before := steps[..|steps| - 1];
    Presented(start, before, i) + match Run(start, before) case None => [] case Some(t) => Asked(t, steps[|steps| - 1], i)
  }

  function Repeated(token: Option<Token>, n: nat): seq<Option<Token>> {
    seq(n, _ => token)
  }

  lemma PresentedNext(start: State, steps: seq<Step>, s: State, step: Step, i: nat)
    requires Run(start, steps) == Some(s)
    ensures Presented(start, steps + [step], i) == Presented(start, steps, i) + Asked(s, step, i)
  {
    assert (steps + [step])[..|steps|] == steps;
  }

  /** Where a section goes on after a failure inside the loop. */
  function AfterFailure(s: State, snapshot: Row, attempt: nat): Pc {
    if attempt < s.maxRetries then Refreshing(snapshot, attempt + 1) else Leaving(None)
  }

  lemma WhileRefreshing(s: State, i: nat)
    requires |s.pcs| == |s.lock.sections| && i < |s.pcs| && s.pcs[i].Refreshing?
    ensures Enabled(s, ServerUnavailable(i)) && Enabled(s, GiveUp(i))
    ensures Apply(s, ServerUnavailable(i)).pcs[i] == AfterFailure(s, s.pcs[i].snapshot, s.pcs[i].attempt)
    ensures Apply(s, GiveUp(i)).pcs[i] == Leaving(None)
    ensures s.pcs[i].attempt < s.maxRetries ==> Apply(s, ServerUnavailable(i)).row == s.row
    ensures var status := if s.pcs[i].snapshot.status.Connected? then Degraded else s.pcs[i].snapshot.status;
      s.pcs[i].attempt >= s.maxRetries ==> Apply(s, ServerUnavailable(i)).row == s.row.(status := status)
  {
  }

  lemma ServerMayAnswer(s: State, i: nat, offer: Offer)
    requires |s.pcs| == |s.lock.sections| && i < |s.pcs| && s.pcs[i].Refreshing?
    requires offer.freshRefresh !in s.server.index
    ensures Enabled(s, ServerAnswers(i, offer))
    ensures var pc := Apply(s, ServerAnswers(i, offer)).pcs[i];
            pc == Leaving(None) || (pc.Answered? && pc.snapshot == s.pcs[i].snapshot && pc.attempt == s.pcs[i].attempt)
  {
  }

  lemma WhileAnswered(s: State, i: nat)
    requires |s.pcs| == |s.lock.sections| && i < |s.pcs| && s.pcs[i].Answered?
    ensures Enabled(s, Persist(i)) && Enabled(s, StoreFails(i))
    ensures Apply(s, StoreFails(i)).pcs[i] == AfterFailure(s, s.pcs[i].snapshot, s.pcs[i].attempt)
    ensures Apply(s, Persist(i)).pcs[i] == Leaving(Some(s.pcs[i].tokens.access))
         || Apply(s, Persist(i)).pcs[i] == Outrun(s.pcs[i].snapshot, s.pcs[i].attempt, s.pcs[i].tokens)
  {
  }

  lemma WhileOutrun(s: State, i: nat)
    requires |s.pcs| == |s.lock.sections| && i < |s.pcs| && s.pcs[i].Outrun?
    ensures Enabled(s, ReadBack(i)) && Enabled(s, StoreFails(i))
    ensures Apply(s, StoreFails(i)).pcs[i] == AfterFailure(s, s.pcs[i].snapshot, s.pcs[i].attempt)
    ensures Apply(s, ReadBack(i)).pcs[i] == Leaving(s.row.access)
  {
  }

  class World {
    var s: State
    ghost const start: State
    ghost var steps: seq<Step>

    ghost predicate Valid()
      reads this
    {
      Run(start, steps) == Some(s) && |s.pcs| == |s.lock.sections|
    }

    constructor (s: State)
      requires |s.pcs| == |s.lock.sections|
      ensures Valid() && this.s == s && start == s && steps == []
    {
      this.s, this.start, this.steps := s, s, [];
    }

    /** The refresh tokens section `i` has presented so far. */
    ghost function History(i: nat): seq<Option<Token>>
      reads this
    {
      Presented(start, steps, i)
    }

    /** One atomic step of section `i`. */
    method Do(step: Step, i: nat)
      requires Valid() && Enabled(s, step) && !step.LockStep?
      modifies this
      ensures Valid() && s == Apply(old(s), step) && old(steps) <= steps
      ensures History(i) == old(History(i)) + Asked(old(s), step, i)
      ensures |s.pcs| == |old(s).pcs| && s.maxRetries == old(s).maxRetries
    {
      Safety.Extend(start, steps, s, step);
      OwnStepsKeepCount(s, step);
      PresentedNext(start, steps, s, step, i);
      hide Apply, Enabled, Run, Presented, Asked;
      s, steps := Apply(s, step), steps + [step];
    }

    /** What others do while section `i` waits: any steps that are possible and are not its own. */
    method Await(i: nat, others: seq<Step>)
      requires Valid() && i < |s.pcs|
      modifies this
      ensures Valid() && old(steps) <= steps
      ensures i < |s.pcs| && s.pcs[i] == old(s).pcs[i] && s.maxRetries == old(s).maxRetries
      ensures History(i) == old(History(i))
    {
      hide Apply, Enabled, Run, Own, Presented, Asked;
      for n := 0 to |others|
        invariant Valid() && old(steps) <= steps && History(i) == old(History(i))
        invariant i < |s.pcs| && s.pcs[i] == old(s).pcs[i] && s.maxRetries == old(s).maxRetries
      {
        if Enabled(s, others[n]) && !Own(others[n], i) {
          Safety.Extend(start, steps, s, others[n]);
          OthersLeaveSectionAlone(s, others[n], i);
          PresentedNext(start, steps, s, others[n], i);
          OthersDoNotAsk(s, others[n], i);
          s, steps := Apply(s, others[n]), steps + [others[n]];
        }
      }
    }

    /** The section's body up to the first request; None when it is done without one. */
    method EnterSection(i: nat, headroom: int) returns (refreshing: bool, result: Option<Token>)
      requires Valid() && i < |s.pcs| && s.pcs[i].Entered?
      modifies this
      ensures Valid() && old(steps) <= steps
      ensures i < |s.pcs| && s.maxRetries == old(s).maxRetries
      ensures refreshing ==> s.pcs[i] == Refreshing(old(s).row, 0) && old(s).row.refresh.Some?
      ensures !refreshing ==> s.pcs[i] == Leaving(result)
      ensures result.Some? ==> result == old(s).row.access
      ensures result.Some? <==>
        && old(s).row.status != ReauthRequired && old(s).row.status != Disabled && old(s).row.access.Some?
        && (old(s).row.expiresAt.None? || old(s).row.expiresAt.value > old(s).lock.clock + headroom)
      ensures refreshing <==>
        && result.None? && old(s).row.status != ReauthRequired && old(s).row.status != Disabled && old(s).row.refresh.Some?
      ensures s == old(s).(pcs := old(s).pcs[i := s.pcs[i]]) && History(i) == old(History(i))
    {
      var latest := s.row;
      var usable := !Barred(latest) && Usable(latest, headroom, s.lock.clock);
      refreshing := !Barred(latest) && !usable && latest.refresh.Some?;
      result := if usable then latest.access else None;
      Do(Reread(i, headroom), i);
    }

    /**
     * refreshLocked: the retry loop. It sends at most one request more than it may
     * retry, presents the token of the row it entered with each time, and ends with
     * the result the protocol gives the section.
     */
    method RefreshLocked(i: nat, replies: nat -> Reply, others: nat -> seq<Step>)
      returns (result: Option<Token>, requests: nat)
      requires Valid() && i < |s.pcs| && s.pcs[i].Refreshing? && s.pcs[i].attempt == 0
      requires forall n :: Honest(replies(n))
      modifies this
      ensures Valid() && old(steps) <= steps
      ensures i < |s.pcs| && s.pcs[i] == Leaving(result)
      ensures 1 <= requests <= old(s).maxRetries + 1
      ensures History(i) == old(History(i)) + Repeated(old(s).pcs[i].snapshot.refresh, requests)
    {
      hide Presented;
      ghost var snapshot := s.pcs[i].snapshot;
      var attempt := 0;
      while true
        invariant Valid() && old(steps) <= steps && i < |s.pcs| && s.maxRetries == old(s).maxRetries
        invariant 0 <= attempt <= s.maxRetries && s.pcs[i] == Refreshing(snapshot, attempt)
        invariant History(i) == old(History(i)) + Repeated(snapshot.refresh, attempt)
        decreases s.maxRetries - attempt
      {
        Await(i, others(3 * attempt));
        var settled;
        settled, result := Request(i, replies(attempt), others(3 * attempt + 1), others(3 * attempt + 2));
        if settled {
          return result, attempt + 1;
        }
        attempt := attempt + 1;
      }
    }

    /** One turn of the loop: one request, and the writing of what it brought. */
    method Request(i: nat, reply: Reply, beforeStore: seq<Step>, beforeRead: seq<Step>)
      returns (settled: bool, result: Option<Token>)
      requires Valid() && i < |s.pcs| && s.pcs[i].Refreshing? && s.pcs[i].attempt <= s.maxRetries && Honest(reply)
      modifies this
      ensures Valid() && old(steps) <= steps && i < |s.pcs| && s.maxRetries == old(s).maxRetries
      ensures settled ==> s.pcs[i] == Leaving(result)
      ensures !settled ==>
        && s.pcs[i] == Refreshing(old(s).pcs[i].snapshot, old(s).pcs[i].attempt + 1)
        && old(s).pcs[i].attempt < s.maxRetries
      ensures History(i) == old(History(i)) + [old(s).pcs[i].snapshot.refresh]
      ensures reply.Unavailable? ==>
        && (settled <==> old(s).pcs[i].attempt >= s.maxRetries) && (settled ==> result.None?)
        && s.row == if !settled then old(s).row else old(s).row.(status :=
             if old(s).pcs[i].snapshot.status == Connected then Degraded else old(s).pcs[i].snapshot.status)
    {
      hide Apply, Enabled, Run, Presented;
      WhileRefreshing(s, i);
      var attempt := s.pcs[i].attempt;
      if reply.Unavailable? {
        Do(ServerUnavailable(i), i);
        return attempt >= s.maxRetries, None;
      }
      if reply.Failed? {
        Do(GiveUp(i), i);
        return true, None;
      }
      ServerMayAnswer(s, i, reply.offer(s.server));
      Do(ServerAnswers(i, reply.offer(s.server)), i);
      if s.pcs[i].Leaving? {
        return true, None;
      }
      Await(i, beforeStore);
      WhileAnswered(s, i);
      if reply.storeFails {
        Do(StoreFails(i), i);
        return attempt >= s.maxRetries, None;
      }
      var access := s.pcs[i].tokens.access;
      Do(Persist(i), i);
      if s.pcs[i].Leaving? {
        return true, Some(access);
      }
      Await(i, beforeRead);
      WhileOutrun(s, i);
      if reply.readFails {
        Do(StoreFails(i), i);
        return attempt >= s.maxRetries, None;
      }
      var latest := s.row.access;
      Do(ReadBack(i), i);
      return true, latest;
    }
  }
}
