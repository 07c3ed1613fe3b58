/**
 * The two locks as one machine (packages/storage/src/sql-store.ts): every replica's
 * in-process lock decides which call may start, a started call is a section of the
 * lease lock, and the call is finished when its section is.
 */
module LayeredLock {
  import opened Wrappers
  import Local = InProcessLock
  import Lease = LeaseLock

  /** `entered[n]` is the in-process call that section `n` belongs to. */
  datatype State = State(local: map<Lease.Replica, Local.State>, lease: Lease.State, entered: seq<nat>)

  datatype Step =
    | InQueue(replica: Lease.Replica, move: Local.Step)  // arrivals, expiries, time-outs, clean-ups
    | Enter(replica: Lease.Replica, call: nat)           // the call starts: its section begins
    | Statement(statement: Lease.Step)                   // what sections do in between
    | Leave(section: nat)                                // the DELETE lands, or the wait for the row is over

  function Initial(clock: int): State {
    State(map[], Lease.Initial(clock), [])
  }

  function LocalOf(s: State, replica: Lease.Replica): Local.State {
    if replica in s.local then s.local[replica] else Local.Initial
  }

  /** The last step of a section. */
  function Last(s: State, n: nat): Lease.Step
    requires n < |s.lease.sections|
  {
    if s.lease.sections[n].phase.Releasing? then Lease.ReleaseRow(n) else Lease.GiveUp(n)
  }

  predicate Enabled(s: State, step: Step) {
    match step
    case InQueue(r, l) =>
      (l.Arrive? || l.Expire? || l.TimeOut? || l.CleanUp?) && Local.Enabled(LocalOf(s, r), l)
    case Enter(r, c) => Local.Enabled(LocalOf(s, r), Local.Start(c))
    case Statement(l) => !l.Begin? && !l.ReleaseRow? && !l.GiveUp? && Lease.Enabled(s.lease, l)
    case Leave(n) =>
      && n < |s.lease.sections| && n < |s.entered| && Lease.Enabled(s.lease, Last(s, n))
      && Local.Enabled(LocalOf(s, s.lease.sections[n].replica), Local.Finish(s.entered[n]))
  }

  function Moved(s: State, replica: Lease.Replica, l: Local.Step): map<Lease.Replica, Local.State>
    requires Local.Enabled(LocalOf(s, replica), l)
  {
    s.local[replica := Local.Apply(LocalOf(s, replica), l)]
  }

  /** What a step is to the lease lock, if anything. */
  function LeaseStep(s: State, step: Step): Option<Lease.Step>
    requires Enabled(s, step)
  {
    match step
    case InQueue(_, _) => None
    case Enter(r, c) => Some(Lease.Begin(r, LocalOf(s, r).calls[c].key))
    case Statement(l) => Some(l)
    case Leave(n) => Some(Last(s, n))
  }

  lemma LeaseStepEnabled(s: State, step: Step)
    requires Enabled(s, step)
    ensures LeaseStep(s, step).Some? ==> Lease.Enabled(s.lease, LeaseStep(s, step).value)
  {
  }

  function Apply(s: State, step: Step): State
    requires Enabled(s, step)
  {
    LeaseStepEnabled(s, step);
    var lease := if LeaseStep(s, step).Some? then Lease.Apply(s.lease, LeaseStep(s, step).value) else s.lease;
    match step
    case InQueue(r, l) => State(Moved(s, r, l), lease, s.entered)
    case Enter(r, c) => State(Moved(s, r, Local.Start(c)), lease, s.entered + [c])
    case Statement(_) => State(s.local, lease, s.entered)
    case Leave(n) => State(Moved(s, s.lease.sections[n].replica, Local.Finish(s.entered[n])), lease, s.entered)
  }

  /** The state a list of steps leads to; None when one of them is not enabled. */
  ghost function Run(s: State, steps: seq<Step>): Option<State> {
    if steps == [] then Some(s) else
    match Run(s, steps[..|steps| - 1])
    case None => None
    case Some(t) => if Enabled(t, steps[|steps| - 1]) then Some(Apply(t, steps[|steps| - 1])) else None
  }

  // ----- every run is a run of the lease lock ------------------------------------------

  ghost function LeaseSteps(s: State, steps: seq<Step>): seq<Lease.Step> {
    if steps == [] then []
    else
      match Run(s, steps[..|steps| - 1])
      case None => []
      case Some(t) =>
        LeaseSteps(s, steps[..|steps| - 1])
          + if Enabled(t, steps[|steps| - 1]) && LeaseStep(t, steps[|steps| - 1]).Some?
            then [LeaseStep(t, steps[|steps| - 1]).value] else []
  }

  lemma {:induction false} RunIsLeaseRun(s: State, steps: seq<Step>)
    requires Run(s, steps).Some?
    ensures Lease.Run(s.lease, LeaseSteps(s, steps)) == Some(Run(s, steps).value.lease)
    decreases |steps|
  {
    hide Enabled, LeaseStep, Lease.Run, Lease.Apply, Lease.Enabled;
    if steps == [] {
      Lease.NoSteps(s.lease);
    } else {
      var earlier, last := steps[..|steps| - 1], steps[|steps| - 1];
      RunIsLeaseRun(s, earlier);
      var t := Run(s, earlier).value;
      LeaseStepEnabled(t, last);
      var done := LeaseSteps(s, earlier);
      if LeaseStep(t, last).Some? {
        Lease.Extend(s.lease, done, t.lease, LeaseStep(t, last).value);
      } else {
        assert done + [] == done;
      }
    }
  }

  /** Over every run, waiters timing out included: one holder per key while every DELETE lands in time. */
  lemma LayeredLockIsSafe(clock: int, steps: seq<Step>, key: Lease.Key)
    requires Run(Initial(clock), steps).Some? && Lease.OnTime(Run(Initial(clock), steps).value.lease, key)
    ensures Lease.OneHolder(Run(Initial(clock), steps).value.lease, key)
  {
    RunIsLeaseRun(Initial(clock), steps);
    Lease.LeaseLockIsSafe(clock, LeaseSteps(Initial(clock), steps), key);
  }

  // ----- without time-outs ---------------------------------------------------------------

  /** The section and its call stand and fall together. */
  ghost predicate Matched(s: State, n: nat)
    requires n < |s.lease.sections| && |s.entered| == |s.lease.sections|
  {
    var c := s.lease.sections[n];
    var calls := LocalOf(s, c.replica).calls;
    && s.entered[n] < |calls| && calls[s.entered[n]].key == c.key
    && (Lease.Open(c) <==> Local.Unfinished(calls[s.entered[n]]))
    && Local.Entered(calls[s.entered[n]])
  }

  ghost predicate Inv(s: State) {
    && |s.entered| == |s.lease.sections|
    && (forall n :: 0 <= n < |s.entered| ==> Matched(s, n))
    && (forall m, n :: 0 <= m < n < |s.entered| && s.lease.sections[m].replica == s.lease.sections[n].replica ==>
          s.entered[m] != s.entered[n])
    && forall r :: Local.Inv(LocalOf(s, r)) && Local.NobodyTimedOut(LocalOf(s, r))
  }

  lemma LocalStepFine(s: Local.State, l: Local.Step)
    requires Local.Inv(s) && Local.NobodyTimedOut(s) && Local.Enabled(s, l) && !l.TimeOut?
    ensures Local.Inv(Local.Apply(s, l)) && Local.NobodyTimedOut(Local.Apply(s, l))
  {
    if Local.Drops(s, l) { Local.DropMeansTimeOut(s, l); }
    Local.StepKeepsInv(s, l);
  }

  lemma LocalsStayFine(s: State, r: Lease.Replica, l: Local.Step, t: State)
    requires (forall q :: Local.Inv(LocalOf(s, q)) && Local.NobodyTimedOut(LocalOf(s, q)))
    requires Local.Enabled(LocalOf(s, r), l) && !l.TimeOut? && t.local == Moved(s, r, l)
    ensures forall q :: Local.Inv(LocalOf(t, q)) && Local.NobodyTimedOut(LocalOf(t, q))
  {
    LocalStepFine(LocalOf(s, r), l);
    hide Local.Inv, Local.NobodyTimedOut, Local.Apply, Local.Enabled;
    forall q ensures Local.Inv(LocalOf(t, q)) && Local.NobodyTimedOut(LocalOf(t, q)) {
      if q != r { assert LocalOf(t, q) == LocalOf(s, q); }
    }
  }

  /** Calls keep their keys, and only start and finish by their own steps. */
  lemma CallStays(s: Local.State, l: Local.Step, c: nat)
    requires Local.Enabled(s, l) && c < |s.calls| && !l.TimeOut?
    ensures var t := Local.Apply(s, l);
      && c < |t.calls| && t.calls[c].key == s.calls[c].key
      && (l != Local.Start(c) && l != Local.Finish(c) ==>
            (Local.Unfinished(t.calls[c]) <==> Local.Unfinished(s.calls[c])) && (Local.Entered(t.calls[c]) <==> Local.Entered(s.calls[c])))
      && (l == Local.Start(c) ==> Local.Unfinished(t.calls[c]) && Local.Entered(t.calls[c]))
      && (l == Local.Finish(c) ==> !Local.Unfinished(t.calls[c]) && Local.Entered(t.calls[c]))
  {
  }

  /** Sections only end by their own last step. */
  lemma SectionStays(s: Lease.State, l: Lease.Step, n: nat)
    requires Lease.Enabled(s, l) && n < |s.sections|
    ensures var t := Lease.Apply(s, l);
      && n < |t.sections| && Lease.SameSlot(t.sections[n], s.sections[n])
      && (Lease.Open(t.sections[n]) <==> Lease.Open(s.sections[n]) && l != Lease.ReleaseRow(n) && l != Lease.GiveUp(n))
    ensures |Lease.Apply(s, l).sections| == |s.sections| + if l.Begin? then 1 else 0
  {
  }

  lemma NewSection(s: Lease.State, r: Lease.Replica, key: Lease.Key)
    ensures Lease.Enabled(s, Lease.Begin(r, key))
    ensures var t := Lease.Apply(s, Lease.Begin(r, key));
      && |t.sections| == |s.sections| + 1 && Lease.Open(t.sections[|s.sections|])
      && t.sections[|s.sections|].replica == r && t.sections[|s.sections|].key == key
  {
  }

  lemma Waits(s: Local.State, c: nat)
    requires Local.Enabled(s, Local.Start(c))
    ensures c < |s.calls| && !Local.Entered(s.calls[c])
  {
  }

  lemma StepKeepsMatched(s: State, step: Step, n: nat)
    requires Inv(s) && Enabled(s, step) && !(step.InQueue? && step.move.TimeOut?)
    requires n < |s.entered|
    ensures |Apply(s, step).entered| == |Apply(s, step).lease.sections| && Matched(Apply(s, step), n)
  {
    var t := Apply(s, step);
    var c := s.lease.sections[n];
    assert Matched(s, n);
    LeaseStepEnabled(s, step);
    if LeaseStep(s, step).Some? { SectionStays(s.lease, LeaseStep(s, step).value, n); }
    match step
    case InQueue(r, l) =>
      if r == c.replica { CallStays(LocalOf(s, r), l, s.entered[n]); }
    case Enter(r, call) =>
      Waits(LocalOf(s, r), call);
      if r == c.replica { CallStays(LocalOf(s, r), Local.Start(call), s.entered[n]); }
    case Statement(_) =>
    case Leave(m) =>
      var r := s.lease.sections[m].replica;
      if r == c.replica { CallStays(LocalOf(s, r), Local.Finish(s.entered[m]), s.entered[n]); }
  }

  lemma EnterMatches(s: State, r: Lease.Replica, c: nat)
    requires Inv(s) && Enabled(s, Enter(r, c))
    ensures var t := Apply(s, Enter(r, c));
      && |t.entered| == |t.lease.sections| == |s.entered| + 1 && Matched(t, |s.entered|)
      && t.lease.sections[|s.entered|].replica == r
      && forall n :: 0 <= n < |s.entered| && s.lease.sections[n].replica == r ==> s.entered[n] != c
    ensures !Lease.Crowds(s.lease, Lease.Begin(r, LocalOf(s, r).calls[c].key))
  {
    var calls := LocalOf(s, r).calls;
    Waits(LocalOf(s, r), c);
    CallStays(LocalOf(s, r), Local.Start(c), c);
    NewSection(s.lease, r, calls[c].key);
    Local.StartFindsKeyFree(LocalOf(s, r), c);
    forall n | 0 <= n < |s.entered| && s.lease.sections[n].replica == r
      ensures s.entered[n] != c && (s.lease.sections[n].key == calls[c].key ==> !Lease.Open(s.lease.sections[n]))
    {
      assert Matched(s, n);
    }
  }

  ghost predicate NeverTimesOut(steps: seq<Step>) {
    forall n :: 0 <= n < |steps| ==> !(steps[n].InQueue? && steps[n].move.TimeOut?)
  }

  lemma StepKeepsInv(s: State, step: Step)
    requires Inv(s) && Enabled(s, step) && !(step.InQueue? && step.move.TimeOut?)
    ensures Inv(Apply(s, step))
    ensures LeaseStep(s, step).Some? ==> !Lease.Crowds(s.lease, LeaseStep(s, step).value)
  {
    var t := Apply(s, step);
    LocalsAfter(s, step);
    if step.Enter? { EnterMatches(s, step.replica, step.call); }
    EnteredAfter(s, step);
    forall n | 0 <= n < |t.entered| ensures |t.entered| == |t.lease.sections| && Matched(t, n) {
      if n < |s.entered| { StepKeepsMatched(s, step, n); }
    }
    forall m, n | 0 <= m < n < |t.entered| && t.lease.sections[m].replica == t.lease.sections[n].replica
      ensures t.entered[m] != t.entered[n]
    {
      SlotAfter(s, step, m);
      if n < |s.entered| { SlotAfter(s, step, n); }
    }
  }

  lemma LocalsAfter(s: State, step: Step)
    requires Inv(s) && Enabled(s, step) && !(step.InQueue? && step.move.TimeOut?)
    ensures forall q :: Local.Inv(LocalOf(Apply(s, step), q)) && Local.NobodyTimedOut(LocalOf(Apply(s, step), q))
  {
    var t := Apply(s, step);
    match step
    case InQueue(r, l) => LocalsStayFine(s, r, l, t);
    case Enter(r, c) => LocalsStayFine(s, r, Local.Start(c), t);
    case Statement(_) => forall q ensures LocalOf(t, q) == LocalOf(s, q) {}
    case Leave(n) => LocalsStayFine(s, s.lease.sections[n].replica, Local.Finish(s.entered[n]), t);
  }

  lemma EnteredAfter(s: State, step: Step)
    requires Enabled(s, step) && |s.entered| == |s.lease.sections|
    ensures var t := Apply(s, step);
      && s.entered <= t.entered && |t.entered| == |s.entered| + (if step.Enter? then 1 else 0)
      && |t.entered| == |t.lease.sections|
  {
    LeaseStepEnabled(s, step);
  }

  lemma SlotAfter(s: State, step: Step, n: nat)
    requires Enabled(s, step) && |s.entered| == |s.lease.sections| && n < |s.entered|
    ensures n < |Apply(s, step).lease.sections| && Apply(s, step).lease.sections[n].replica == s.lease.sections[n].replica
  {
    LeaseStepEnabled(s, step);
    if LeaseStep(s, step).Some? { SectionStays(s.lease, LeaseStep(s, step).value, n); }
  }

  lemma {:induction false} RunWithoutTimeOuts(s: State, steps: seq<Step>)
    requires Inv(s) && Run(s, steps).Some? && NeverTimesOut(steps)
    ensures Inv(Run(s, steps).value)
    ensures Lease.NeverCrowds(s.lease, LeaseSteps(s, steps))
    decreases |steps|
  {
    hide Inv, Enabled, Apply, LeaseStep, Lease.Crowds, Lease.Run;
    if steps != [] {
      var earlier, last := steps[..|steps| - 1], steps[|steps| - 1];
      RunWithoutTimeOuts(s, earlier);
      RunIsLeaseRun(s, earlier);
      var t := Run(s, earlier).value;
      StepKeepsInv(t, last);
      var done := LeaseSteps(s, earlier);
      if LeaseStep(t, last).Some? {
        var more := done + [LeaseStep(t, last).value];
        assert more[..|more| - 1] == done;
      } else {
        assert done + [] == done;
      }
    }
  }

  lemma InitialInv(clock: int)
    ensures Inv(Initial(clock)) && Lease.OnePerSlot(Initial(clock).lease)
  {
  }

  /**
   * Without time-outs in the queues a replica never has two unfinished sections of one
   * key, so it is enough that leases last while sections run.
   */
  lemma WithoutTimeOutsRunningIsEnough(clock: int, steps: seq<Step>)
    requires Run(Initial(clock), steps).Some? && NeverTimesOut(steps)
    ensures Lease.Exclusive(Run(Initial(clock), steps).value.lease)
  {
    InitialInv(clock);
    RunWithoutTimeOuts(Initial(clock), steps);
    RunIsLeaseRun(Initial(clock), steps);
    Lease.UncrowdedRunsAreExclusive(clock, LeaseSteps(Initial(clock), steps));
  }

  // ----- with a time-out -----------------------------------------------------------------

  lemma NoSteps(s: State)
    ensures Run(s, []) == Some(s)
  {
  }

  lemma Extend(s: State, steps: seq<Step>, t: State, step: Step)
    requires Run(s, steps) == Some(t) && Enabled(t, step)
    ensures Run(s, steps + [step]) == Some(Apply(t, step))
  {
    assert (steps + [step])[..|steps|] == steps;
  }

  /** A call starts, and its section number `n` takes a row that is free. */
  function Takes(replica: Lease.Replica, call: nat, n: nat, leaseMs: nat): seq<Step> {
    [Enter(replica, call), Statement(Lease.AskRow(n)), Statement(Lease.RowAnswer(n, leaseMs))]
  }

  function Taken(lease: Lease.State, replica: Lease.Replica, key: Lease.Key, leaseMs: nat): Lease.State
    requires Lease.CanAcquire(lease.rows, key, lease.clock)
  {
    Lease.TakesRow(lease, replica, key, leaseMs);
    Lease.BeginIsFree(lease, replica, key);
    var n := |lease.sections|;
    Lease.Apply(Lease.Apply(Lease.Apply(lease, Lease.Begin(replica, key)), Lease.AskRow(n)), Lease.RowAnswer(n, leaseMs))
  }

  lemma CallTakesRow(s0: State, steps: seq<Step>, s: State, r: Lease.Replica, c: nat, key: Lease.Key, leaseMs: nat)
    returns (t: State)
    requires Run(s0, steps) == Some(s) && Local.Enabled(LocalOf(s, r), Local.Start(c)) && LocalOf(s, r).calls[c].key == key
    requires Lease.CanAcquire(s.lease.rows, key, s.lease.clock)
    ensures Run(s0, steps + Takes(r, c, |s.lease.sections|, leaseMs)) == Some(t)
    ensures t == State(Moved(s, r, Local.Start(c)), Taken(s.lease, r, key, leaseMs), s.entered + [c])
  {
    hide Run, Lease.Apply, Local.Apply, Local.Enabled, Lease.Enabled;
    var n := |s.lease.sections|;
    Lease.TakesRow(s.lease, r, key, leaseMs);
    Lease.BeginIsFree(s.lease, r, key);
    var s1 := Apply(s, Enter(r, c));
    var s2 := Apply(s1, Statement(Lease.AskRow(n)));
    t := Apply(s2, Statement(Lease.RowAnswer(n, leaseMs)));
    Extend(s0, steps, s, Enter(r, c));
    Extend(s0, steps + [Enter(r, c)], s1, Statement(Lease.AskRow(n)));
    Extend(s0, steps + [Enter(r, c)] + [Statement(Lease.AskRow(n))], s2, Statement(Lease.RowAnswer(n, leaseMs)));
    assert steps + [Enter(r, c)] + [Statement(Lease.AskRow(n))] + [Statement(Lease.RowAnswer(n, leaseMs))]
        == steps + Takes(r, c, n, leaseMs);
  }

  lemma Moves(s0: State, steps: seq<Step>, s: State, r: Lease.Replica, l: Local.Step)
    returns (t: State)
    requires Run(s0, steps) == Some(s) && Enabled(s, InQueue(r, l))
    ensures Run(s0, steps + [InQueue(r, l)]) == Some(t) && t == s.(local := Moved(s, r, l))
  {
    Extend(s0, steps, s, InQueue(r, l));
    t := Apply(s, InQueue(r, l));
  }

  /** A running call with a newcomer behind whom nothing waits: a second call has timed out in between. */
  function Overtaken(key: Lease.Key): Local.State {
    Local.State([Local.Call(key, None, Local.Running(false), false), Local.Call(key, Some(0), Local.TimedOut, true),
                 Local.Call(key, None, Local.Waiting, false)], map[key := 2])
  }

  function Entering(key: Lease.Key): Local.State {
    Local.State([Local.Call(key, None, Local.Running(false), false)], map[key := 0])
  }

  function TimingOut(key: Lease.Key): seq<Step> {
    [InQueue(0, Local.Arrive(key)), InQueue(0, Local.TimeOut(1)), InQueue(0, Local.CleanUp(1)), InQueue(0, Local.Arrive(key))]
  }

  /** The second caller times out and its clean-up drops the queue; a third caller arrives. */
  lemma WaiterTimesOut(s0: State, steps: seq<Step>, s: State, key: Lease.Key)
    returns (t: State)
    requires Run(s0, steps) == Some(s) && s.local == map[0 := Entering(key)]
    ensures Run(s0, steps + TimingOut(key)) == Some(t)
    ensures t == s.(local := map[0 := Overtaken(key)])
  {
    hide Run;
    var t1 := Moves(s0, steps, s, 0, Local.Arrive(key));
    var t2 := Moves(s0, steps + [InQueue(0, Local.Arrive(key))], t1, 0, Local.TimeOut(1));
    var t3 := Moves(s0, steps + [InQueue(0, Local.Arrive(key))] + [InQueue(0, Local.TimeOut(1))], t2, 0, Local.CleanUp(1));
    t := Moves(s0, steps + [InQueue(0, Local.Arrive(key))] + [InQueue(0, Local.TimeOut(1))] + [InQueue(0, Local.CleanUp(1))],
               t3, 0, Local.Arrive(key));
    assert steps + [InQueue(0, Local.Arrive(key))] + [InQueue(0, Local.TimeOut(1))] + [InQueue(0, Local.CleanUp(1))]
             + [InQueue(0, Local.Arrive(key))] == steps + TimingOut(key);
    assert LocalOf(t, 0).calls == Overtaken(key).calls && LocalOf(t, 0).tails == Overtaken(key).tails;
    assert t.local == map[0 := LocalOf(t, 0)];
  }

  lemma FirstEnters(clock: int, key: Lease.Key)
    returns (t: State)
    ensures Run(Initial(clock), [InQueue(0, Local.Arrive(key))] + Takes(0, 0, 0, 10)) == Some(t)
    ensures t.local == map[0 := Entering(key)] && t.entered == [0]
    ensures t.lease == Taken(Lease.Initial(clock), 0, key, 10)
  {
    var s0 := Initial(clock);
    NoSteps(s0);
    var s1 := Moves(s0, [], s0, 0, Local.Arrive(key));
    assert [] + [InQueue(0, Local.Arrive(key))] == [InQueue(0, Local.Arrive(key))];
    assert LocalOf(s1, 0) == Local.State([Local.Call(key, None, Local.Waiting, false)], map[key := 0]);
    t := CallTakesRow(s0, [InQueue(0, Local.Arrive(key))], s1, 0, 0, key, 10);
    assert LocalOf(t, 0).calls == Entering(key).calls;
    assert t.local == map[0 := LocalOf(t, 0)];
  }

  function WorkEnds(): seq<Step> {
    [Statement(Lease.WorkDone(0)), Statement(Lease.Tick(10))]
  }

  lemma LeaseRunsOut(s0: State, steps: seq<Step>, s: State, key: Lease.Key)
    returns (t: State)
    requires Run(s0, steps) == Some(s)
    requires Lease.Enabled(s.lease, Lease.WorkDone(0)) && Lease.Enabled(Lease.Apply(s.lease, Lease.WorkDone(0)), Lease.Tick(10))
    ensures Run(s0, steps + WorkEnds()) == Some(t)
    ensures t == s.(lease := Lease.Apply(Lease.Apply(s.lease, Lease.WorkDone(0)), Lease.Tick(10)))
  {
    hide Run, Lease.Apply, Lease.Enabled;
    var s1 := Apply(s, Statement(Lease.WorkDone(0)));
    t := Apply(s1, Statement(Lease.Tick(10)));
    Extend(s0, steps, s, Statement(Lease.WorkDone(0)));
    Extend(s0, steps + [Statement(Lease.WorkDone(0))], s1, Statement(Lease.Tick(10)));
    assert steps + [Statement(Lease.WorkDone(0))] + [Statement(Lease.Tick(10))] == steps + WorkEnds();
  }

  lemma TakenFacts(s: Lease.State, r: Lease.Replica, key: Lease.Key, leaseMs: nat)
    requires Lease.CanAcquire(s.rows, key, s.clock)
    ensures var t, n := Taken(s, r, key, leaseMs), |s.sections|;
      && |t.sections| == n + 1 && t.clock == s.clock && t.rows == s.rows[key := Lease.Lease(r, s.clock + leaseMs)]
      && (forall i :: 0 <= i < n ==> t.sections[i].phase == s.sections[i].phase && Lease.SameSlot(t.sections[i], s.sections[i]))
      && t.sections[n].phase.Running? && t.sections[n].replica == r && t.sections[n].key == key
      && (leaseMs > 0 ==> !t.sections[n].lapsed)
      && (Lease.Observe(s) == s ==> forall i :: 0 <= i < n ==> t.sections[i] == s.sections[i])
      && Lease.Observe(t) == t
  {
    Lease.TakesRow(s, r, key, leaseMs);
    hide Lease.Apply, Lease.Observe, Lease.CanAcquire;
  }

  lemma FreeAtFirst(clock: int, key: Lease.Key)
    ensures var s := Lease.Initial(clock); Lease.CanAcquire(s.rows, key, s.clock) && |s.sections| == 0 && s.rows == map[]
  {
  }

  /** The overtaking call has started. */
  function Overtaking(key: Lease.Key): Local.State {
    Overtaken(key).(calls := Overtaken(key).calls[2 := Local.Call(key, None, Local.Running(false), false)])
  }

  lemma ThirdMayStart(s: State, key: Lease.Key)
    requires s.local == map[0 := Overtaken(key)]
    ensures Local.Enabled(LocalOf(s, 0), Local.Start(2)) && LocalOf(s, 0).calls[2].key == key
    ensures Moved(s, 0, Local.Start(2)) == map[0 := Overtaking(key)]
  {
    assert Local.Apply(LocalOf(s, 0), Local.Start(2)).calls == Overtaking(key).calls;
  }

  /** The late DELETE of the first section lands. */
  lemma FirstLeaves(s0: State, steps: seq<Step>, s: State, key: Lease.Key)
    returns (t: State)
    requires Run(s0, steps) == Some(s) && s.local == map[0 := Overtaking(key)] && s.entered == [0, 2]
    requires |s.lease.sections| == 2 && s.lease.sections[0].phase.Releasing? && s.lease.sections[0].replica == 0
    ensures Run(s0, steps + [Leave(0)]) == Some(t)
    ensures Lease.Enabled(s.lease, Lease.ReleaseRow(0)) && t.lease == Lease.Apply(s.lease, Lease.ReleaseRow(0))
    ensures 1 !in t.local
  {
    hide Run;
    assert Local.Enabled(LocalOf(s, 0), Local.Finish(0));
    Extend(s0, steps, s, Leave(0));
    t := Apply(s, Leave(0));
  }

  lemma OtherArrives(s0: State, steps: seq<Step>, s: State, key: Lease.Key)
    returns (t: State)
    requires Run(s0, steps) == Some(s) && 1 !in s.local
    ensures Run(s0, steps + [InQueue(1, Local.Arrive(key))]) == Some(t) && t.lease == s.lease
    ensures Local.Enabled(LocalOf(t, 1), Local.Start(0)) && LocalOf(t, 1).calls[0].key == key
  {
    hide Run;
    t := Moves(s0, steps, s, 1, Local.Arrive(key));
  }

  /** The steps that lead to two replicas running. */
  function Fatal(key: Lease.Key): seq<Step> {
    [InQueue(0, Local.Arrive(key))] + Takes(0, 0, 0, 10) + TimingOut(key) + WorkEnds() + Takes(0, 2, 1, 100)
      + [Leave(0)] + [InQueue(1, Local.Arrive(key))] + Takes(1, 0, 2, 100)
  }

  /**
   * A waiter that times out is enough: the caller behind it takes the row beside a
   * finished section whose DELETE is late; the DELETE removes that row, and another
   * replica gets in. No lease has lapsed while its section ran.
   */
  lemma TimedOutWaiterOverlaps(clock: int, key: Lease.Key)
    ensures var after := Run(Initial(clock), Fatal(key));
      && after.Some? && |after.value.lease.sections| == 3
      && after.value.lease.sections[1].phase.Running? && after.value.lease.sections[2].phase.Running?
      && after.value.lease.sections[1].replica != after.value.lease.sections[2].replica
      && forall n :: 0 <= n < 3 ==> !after.value.lease.sections[n].lapsed
  {
    hide Run, Taken, Takes, TimingOut, WorkEnds, Apply, Enabled, Lease.Apply, Lease.Enabled, Lease.Observe, Lease.CanAcquire;
    var s0 := Initial(clock);
    var p1 := [InQueue(0, Local.Arrive(key))] + Takes(0, 0, 0, 10);
    var s1 := FirstEnters(clock, key);
    FreeAtFirst(clock, key);
    TakenFacts(s0.lease, 0, key, 10);
    Lease.LateDelete(s1.lease, key);
    var s2 := WaiterTimesOut(s0, p1, s1, key);
    var p2 := p1 + TimingOut(key);
    var s3 := LeaseRunsOut(s0, p2, s2, key);
    var p3 := p2 + WorkEnds();
    ThirdMayStart(s3, key);
    var s4 := CallTakesRow(s0, p3, s3, 0, 2, key, 100);
    TakenFacts(s3.lease, 0, key, 100);
    Lease.DeleteTakesRow(s4.lease, key);
    var s5 := FirstLeaves(s0, p3 + Takes(0, 2, 1, 100), s4, key);
    var p5 := p3 + Takes(0, 2, 1, 100) + [Leave(0)];
    var s6 := OtherArrives(s0, p5, s5, key);
    var s7 := CallTakesRow(s0, p5 + [InQueue(1, Local.Arrive(key))], s6, 1, 0, key, 100);
    TakenFacts(s5.lease, 1, key, 100);
  }
}
