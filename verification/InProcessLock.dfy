/**
 * The per-key promise chain that serialises critical sections inside one
 * process (packages/security/src/locks.ts).
 *
 * Calls are numbered in arrival order. A call waits for the `tail` promise of
 * the call it found in `tails`; that promise settles once every call in front
 * of it, and the call itself, has let go. Timers firing, sections finishing and
 * queued microtasks are separate steps, so every interleaving is a step list.
 */
module InProcessLock {
  import opened Wrappers

  type Key = string

  datatype Phase =
    | Waiting
    | Running(abandoned: bool)  // abandoned: the caller was rejected by lease expiry, the work goes on
    | Finished
    | TimedOut

  datatype Call = Call(key: Key, previous: Option<nat>, phase: Phase, cleaned: bool)

  datatype State = State(calls: seq<Call>, tails: map<Key, nat>)

  datatype Step =
    | Arrive(key: Key)   // withLock up to the first await
    | Start(call: nat)   // the turn comes and the section is entered
    | Expire(call: nat)  // the lease timer rejects the caller of a running section
    | Finish(call: nat)  // the section itself settles and releases the chain
    | TimeOut(call: nat) // a waiter gives up and releases the chain
    | CleanUp(call: nat) // the queued microtask that may delete the map entry

  const Initial := State([], map[])

  predicate Released(c: Call) {
    c.phase.Finished? || c.phase.TimedOut?
  }

  /** A section that has been entered and whose work has not settled. */
  predicate Unfinished(c: Call) {
    c.phase.Running?
  }

  predicate Entered(c: Call) {
    c.phase.Running? || c.phase.Finished?
  }

  predicate WellFormed(s: State) {
    && (forall i :: 0 <= i < |s.calls| && s.calls[i].previous.Some? ==> s.calls[i].previous.value < i)
    && (forall k :: k in s.tails ==> s.tails[k] < |s.calls|)
  }

  /** Whether the `tail` promise of call `i` has settled. */
  predicate Settled(s: State, i: nat)
    requires WellFormed(s) && i < |s.calls|
    decreases i
  {
    && Released(s.calls[i])
    && (s.calls[i].previous.Some? ==> Settled(s, s.calls[i].previous.value))
  }

  /** Whether the promise call `i` waits for has settled. */
  predicate TurnReached(s: State, i: nat)
    requires WellFormed(s) && i < |s.calls|
  {
    s.calls[i].previous.Some? ==> Settled(s, s.calls[i].previous.value)
  }

  predicate Enabled(s: State, step: Step) {
    && WellFormed(s)
    && match step
       case Arrive(_) => true
       case Start(i) => i < |s.calls| && s.calls[i].phase.Waiting? && TurnReached(s, i)
       case Expire(i) => i < |s.calls| && s.calls[i].phase == Running(false)
       case Finish(i) => i < |s.calls| && s.calls[i].phase.Running?
       case TimeOut(i) => i < |s.calls| && s.calls[i].phase.Waiting?
       case CleanUp(i) => i < |s.calls| && Released(s.calls[i]) && !s.calls[i].cleaned
  }

  function WithPhase(s: State, i: nat, phase: Phase): State
    requires i < |s.calls|
  {
    s.(calls := s.calls[i := s.calls[i].(phase := phase)])
  }

  function Apply(s: State, step: Step): State
    requires Enabled(s, step)
  {
    match step
    case Arrive(key) =>
      var previous := if key in s.tails then Some(s.tails[key]) else None;
      State(s.calls + [Call(key, previous, Waiting, false)], s.tails[key := |s.calls|])
    case Start(i) => WithPhase(s, i, Running(false))
    case Expire(i) => WithPhase(s, i, Running(true))
    case Finish(i) => WithPhase(s, i, Finished)
    case TimeOut(i) => WithPhase(s, i, TimedOut)
    case CleanUp(i) =>
      var key := s.calls[i].key;
      State(s.calls[i := s.calls[i].(cleaned := true)],
            if key in s.tails && s.tails[key] == i then s.tails - {key} else s.tails)
  }

  // ----- the invariant ---------------------------------------------------------------

  /** No call is queued ahead of `i` except through the call `i` waits for. */
  ghost predicate Linked(s: State, i: nat)
    requires WellFormed(s) && i < |s.calls|
  {
    match s.calls[i].previous
    case None =>
      forall j :: 0 <= j < i && s.calls[j].key == s.calls[i].key ==> Released(s.calls[j])
    case Some(p) =>
      && s.calls[p].key == s.calls[i].key
      && forall j :: p < j < i ==> s.calls[j].key != s.calls[i].key
  }

  ghost predicate TailIsNewest(s: State, k: Key)
    requires WellFormed(s)
  {
    if k in s.tails then
      && s.calls[s.tails[k]].key == k
      && forall j :: s.tails[k] < j < |s.calls| ==> s.calls[j].key != k
    else
      forall j :: 0 <= j < |s.calls| && s.calls[j].key == k ==> Released(s.calls[j])
  }

  ghost predicate Inv(s: State) {
    && WellFormed(s)
    && (forall i :: 0 <= i < |s.calls| ==> Linked(s, i))
    && (forall i :: 0 <= i < |s.calls| && Entered(s.calls[i]) ==> TurnReached(s, i))
    && (forall k :: TailIsNewest(s, k))
  }

  /**
   * Sections of one key run one at a time and in arrival order: when a call has
   * entered, every call that arrived before it on that key has let go.
   */
  ghost predicate Ordered(s: State) {
    forall i, j :: 0 <= i < j < |s.calls| && s.calls[i].key == s.calls[j].key && Entered(s.calls[j])
      ==> Released(s.calls[i])
  }

  ghost predicate Exclusive(s: State) {
    forall i, j :: 0 <= i < j < |s.calls| && s.calls[i].key == s.calls[j].key && Unfinished(s.calls[i])
      ==> !Unfinished(s.calls[j])
  }

  lemma {:induction false} SettledReleasesAll(s: State, p: nat, j: nat)
    requires WellFormed(s) && (forall i :: 0 <= i < |s.calls| ==> Linked(s, i))
    requires j <= p < |s.calls| && Settled(s, p) && s.calls[j].key == s.calls[p].key
    ensures Released(s.calls[j])
    decreases p
  {
    assert Linked(s, p);
    if j < p && s.calls[p].previous.Some? {
      SettledReleasesAll(s, s.calls[p].previous.value, j);
    }
  }

  lemma InvIsOrdered(s: State)
    requires Inv(s)
    ensures Ordered(s) && Exclusive(s)
  {
    forall i, j | 0 <= i < j < |s.calls| && s.calls[i].key == s.calls[j].key && Entered(s.calls[j])
      ensures Released(s.calls[i])
    {
      assert Linked(s, j) && TurnReached(s, j);
      if s.calls[j].previous.Some? {
        SettledReleasesAll(s, s.calls[j].previous.value, i);
      }
    }
  }

  /**
   * The one step that breaks the queue: the microtask of a call deletes the map
   * entry although the call in front of it has not let go.
   */
  predicate Drops(s: State, step: Step)
    requires Enabled(s, step)
  {
    && step.CleanUp?
    && s.calls[step.call].key in s.tails
    && s.tails[s.calls[step.call].key] == step.call
    && !TurnReached(s, step.call)
  }

  lemma {:induction false} SettledIsStable(s: State, t: State, i: nat)
    requires WellFormed(s) && WellFormed(t) && |s.calls| <= |t.calls| && i < |s.calls|
    requires forall j :: 0 <= j < |s.calls| ==>
      t.calls[j].previous == s.calls[j].previous && (Released(s.calls[j]) ==> Released(t.calls[j]))
    requires Settled(s, i)
    ensures Settled(t, i)
    decreases i
  {
    if s.calls[i].previous.Some? {
      SettledIsStable(s, t, s.calls[i].previous.value);
    }
  }

  lemma StepKeepsTurns(s: State, step: Step, i: nat)
    requires Inv(s) && Enabled(s, step)
    requires i < |Apply(s, step).calls| && Entered(Apply(s, step).calls[i])
    ensures TurnReached(Apply(s, step), i)
  {
    assert TurnReached(s, i);
    if s.calls[i].previous.Some? {
      SettledIsStable(s, Apply(s, step), s.calls[i].previous.value);
    }
  }

  lemma StepKeepsLinks(s: State, step: Step, i: nat)
    requires Inv(s) && Enabled(s, step)
    requires i < |Apply(s, step).calls|
    ensures Linked(Apply(s, step), i)
  {
    if i < |s.calls| { assert Linked(s, i); } else { assert TailIsNewest(s, step.key); }
  }

  lemma StepKeepsTail(s: State, step: Step, k: Key)
    requires Inv(s) && Enabled(s, step) && !Drops(s, step)
    ensures TailIsNewest(Apply(s, step), k)
  {
    var t := Apply(s, step);
    assert TailIsNewest(s, k);
    if step.CleanUp? && k in s.tails && k !in t.tails {
      forall j | 0 <= j < |t.calls| && t.calls[j].key == k
        ensures Released(t.calls[j])
      {
        SettledReleasesAll(s, step.call, j);
      }
    }
  }

  lemma StepKeepsInv(s: State, step: Step)
    requires Inv(s) && Enabled(s, step) && !Drops(s, step)
    ensures Inv(Apply(s, step))
  {
    var t := Apply(s, step);
    forall i | 0 <= i < |t.calls| ensures Linked(t, i) { StepKeepsLinks(s, step, i); }
    forall i | 0 <= i < |t.calls| && Entered(t.calls[i]) ensures TurnReached(t, i) {
      StepKeepsTurns(s, step, i);
    }
    forall k ensures TailIsNewest(t, k) { StepKeepsTail(s, step, k); }
  }

  // ----- runs ------------------------------------------------------------------------

  /** The state a list of steps leads to; None when one of them is not enabled. */
  ghost function Run(s: State, steps: seq<Step>): Option<State> {
    if steps == [] then Some(s) else
    match Run(s, steps[..|steps| - 1])
    case None => None
    case Some(t) => if Enabled(t, steps[|steps| - 1]) then Some(Apply(t, steps[|steps| - 1])) else None
  }

  lemma Extend(s: State, steps: seq<Step>, t: State, step: Step)
    requires Run(s, steps) == Some(t) && Enabled(t, step)
    ensures Run(s, steps + [step]) == Some(Apply(t, step))
  {
    assert (steps + [step])[..|steps|] == steps;
  }

  ghost predicate NeverDrops(s: State, steps: seq<Step>) {
    steps == [] || (
      && NeverDrops(s, steps[..|steps| - 1])
      && match Run(s, steps[..|steps| - 1])
         case None => true
         case Some(t) => Enabled(t, steps[|steps| - 1]) ==> !Drops(t, steps[|steps| - 1]))
  }

  lemma {:induction false} RunKeepsInv(s: State, steps: seq<Step>)
    requires Inv(s) && Run(s, steps).Some? && NeverDrops(s, steps)
    ensures Inv(Run(s, steps).value)
    decreases |steps|
  {
    if steps != [] {
      RunKeepsInv(s, steps[..|steps| - 1]);
      StepKeepsInv(Run(s, steps[..|steps| - 1]).value, steps[|steps| - 1]);
    }
  }

  /** Only a waiter that timed out can drop the queue. */
  lemma DropMeansTimeOut(s: State, step: Step)
    requires Inv(s) && Enabled(s, step) && Drops(s, step)
    ensures s.calls[step.call].phase.TimedOut?
  {
    assert TurnReached(s, step.call) || !Entered(s.calls[step.call]);
  }

  ghost predicate NobodyTimedOut(s: State) {
    forall i :: 0 <= i < |s.calls| ==> !s.calls[i].phase.TimedOut?
  }

  lemma {:induction false} WithoutTimeOutsNothingDrops(s: State, steps: seq<Step>)
    requires Inv(s) && NobodyTimedOut(s) && Run(s, steps).Some?
    requires forall n :: 0 <= n < |steps| ==> !steps[n].TimeOut?
    ensures NeverDrops(s, steps) && NobodyTimedOut(Run(s, steps).value)
    decreases |steps|
  {
    if steps != [] {
      var earlier, last := steps[..|steps| - 1], steps[|steps| - 1];
      WithoutTimeOutsNothingDrops(s, earlier);
      RunKeepsInv(s, earlier);
      var t := Run(s, earlier).value;
      if Drops(t, last) { DropMeansTimeOut(t, last); }
    }
  }

  /** Runs in which no waiter times out are exclusive and first come, first served. */
  lemma QueueIsSafe(steps: seq<Step>)
    requires Run(Initial, steps).Some?
    requires forall n :: 0 <= n < |steps| ==> !steps[n].TimeOut?
    ensures Ordered(Run(Initial, steps).value) && Exclusive(Run(Initial, steps).value)
  {
    WithoutTimeOutsNothingDrops(Initial, steps);
    RunKeepsInv(Initial, steps);
    InvIsOrdered(Run(Initial, steps).value);
  }

  /** What a lease lock layered on top relies on: a section is entered only when its key is free. */
  lemma StartFindsKeyFree(s: State, i: nat)
    requires Inv(s) && Enabled(s, Start(i))
    ensures forall j :: 0 <= j < |s.calls| && s.calls[j].key == s.calls[i].key ==> !Unfinished(s.calls[j])
    ensures forall j :: 0 <= j < i && s.calls[j].key == s.calls[i].key ==> Released(s.calls[j])
  {
    var t := Apply(s, Start(i));
    StepKeepsInv(s, Start(i));
    InvIsOrdered(t);
    InvIsOrdered(s);
    assert Entered(t.calls[i]);
    forall j | 0 <= j < i && s.calls[j].key == s.calls[i].key
      ensures Released(s.calls[j])
    {
      assert Released(t.calls[j]) && t.calls[j] == s.calls[j];
    }
  }

  lemma {:induction false} SomeoneUnreleased(s: State, p: nat) returns (w: nat)
    requires WellFormed(s) && (forall i :: 0 <= i < |s.calls| ==> Linked(s, i))
    requires p < |s.calls| && !Settled(s, p)
    ensures w <= p && s.calls[w].key == s.calls[p].key && !Released(s.calls[w])
    decreases p
  {
    if !Released(s.calls[p]) {
      w := p;
    } else {
      assert Linked(s, p);
      w := SomeoneUnreleased(s, s.calls[p].previous.value);
    }
  }

  /**
   * A drop is never harmless: after one, a newcomer enters at once although an
   * earlier call on its key has not let go. With RunKeepsInv this makes "nothing
   * drops" exactly what keeps arrival order safe whatever comes next.
   */
  lemma DropLetsNewcomerOvertake(s: State, step: Step)
    requires Inv(s) && Enabled(s, step) && Drops(s, step)
    ensures var after := Run(s, [step, Arrive(s.calls[step.call].key), Start(|s.calls|)]);
            after.Some? && !Ordered(after.value)
  {
    var key, newcomer := s.calls[step.call].key, |s.calls|;
    var s1 := Apply(s, step);
    var s2 := Apply(s1, Arrive(key));
    assert s2.calls[newcomer] == Call(key, None, Waiting, false);
    var s3 := Apply(s2, Start(newcomer));
    Extend(s, [], s, step);
    Extend(s, [step], s1, Arrive(key));
    Extend(s, [step, Arrive(key)], s2, Start(newcomer));
    assert [] + [step] == [step] && [step] + [Arrive(key)] == [step, Arrive(key)];
    assert [step, Arrive(key)] + [Start(newcomer)] == [step, Arrive(key), Start(newcomer)];
    assert Linked(s, step.call);
    var w := SomeoneUnreleased(s, s.calls[step.call].previous.value);
    assert !Released(s3.calls[w]) && Entered(s3.calls[newcomer]);
  }

  /** A running call with a second one behind it that has just timed out. */
  function TimedOutQueue(key: Key): State {
    State([Call(key, None, Running(false), false), Call(key, Some(0), TimedOut, false)], map[key := 1])
  }

  lemma QueueTimesOut(key: Key)
    ensures Run(Initial, [Arrive(key), Start(0), Arrive(key), TimeOut(1)]) == Some(TimedOutQueue(key))
  {
    hide Run;
    var queue := [Arrive(key), Start(0), Arrive(key), TimeOut(1)];
    var s1 := Apply(Initial, queue[0]);
    var s2 := Apply(s1, queue[1]);
    var s3 := Apply(s2, queue[2]);
    var s4 := Apply(s3, queue[3]);
    assert s4.calls == TimedOutQueue(key).calls && s4.tails == TimedOutQueue(key).tails;
    assert [] + [queue[0]] == queue[..1] && queue[..1] + [queue[1]] == queue[..2];
    assert queue[..2] + [queue[2]] == queue[..3] && queue[..3] + [queue[3]] == queue;
    NoSteps(Initial);
    Extend(Initial, [], Initial, queue[0]);
    Extend(Initial, queue[..1], s1, queue[1]);
    Extend(Initial, queue[..2], s2, queue[2]);
    Extend(Initial, queue[..3], s3, queue[3]);
  }

  lemma NoSteps(s: State)
    ensures Run(s, []) == Some(s)
  {
  }

  /** A queue of two whose second call times out ends up running two sections at once. */
  lemma TimeOutOverlaps(key: Key)
    ensures var after := Run(Initial, [Arrive(key), Start(0), Arrive(key), TimeOut(1), CleanUp(1), Arrive(key), Start(2)]);
            after.Some? && !Exclusive(after.value)
  {
    hide Run;
    var queue := [Arrive(key), Start(0), Arrive(key), TimeOut(1)];
    QueueTimesOut(key);
    var s := TimedOutQueue(key);
    var s5 := Apply(s, CleanUp(1));
    var s6 := Apply(s5, Arrive(key));
    assert s6.calls[2] == Call(key, None, Waiting, false);
    var s7 := Apply(s6, Start(2));
    Extend(Initial, queue, s, CleanUp(1));
    Extend(Initial, queue + [CleanUp(1)], s5, Arrive(key));
    Extend(Initial, queue + [CleanUp(1)] + [Arrive(key)], s6, Start(2));
    assert queue + [CleanUp(1)] + [Arrive(key)] + [Start(2)]
        == [Arrive(key), Start(0), Arrive(key), TimeOut(1), CleanUp(1), Arrive(key), Start(2)];
    assert Unfinished(s7.calls[0]) && Unfinished(s7.calls[2]);
  }

  /** A waiting call may start exactly when every earlier call of its key has finished or given up. */
  lemma TurnComesInOrder(s: State, i: nat)
    requires Inv(s) && i < |s.calls| && s.calls[i].phase.Waiting?
    ensures Enabled(s, Start(i)) <==> forall j :: 0 <= j < i && s.calls[j].key == s.calls[i].key ==>
      s.calls[j].phase.Finished? || s.calls[j].phase.TimedOut?
  {
    assert Linked(s, i);
    if TurnReached(s, i) {
      StartFindsKeyFree(s, i);
    } else {
      var w := SomeoneUnreleased(s, s.calls[i].previous.value);
      assert s.calls[w].key == s.calls[i].key;
    }
  }

  // ----- the object ------------------------------------------------------------------

  /** The lock as the object it is: one method per stretch of withLock between two awaits. */
  class Lock {
    var calls: seq<Call>
    var tails: map<Key, nat>

    ghost function Model(): State
      reads this
    {
      State(calls, tails)
    }

    constructor ()
      ensures Model() == Initial
    {
      calls, tails := [], map[];
    }

    method Queue(key: Key) returns (call: nat)
      requires WellFormed(Model())
      modifies this
      ensures call == |old(calls)| && Model() == Apply(old(Model()), Arrive(key))
      ensures tails == old(tails)[key := call]
      ensures calls == old(calls) + [Call(key, if key in old(tails) then Some(old(tails)[key]) else None, Waiting, false)]
    {
      call := |calls|;
      var previous := None;
      if key in tails {
        previous := Some(tails[key]);
      }
      calls := calls + [Call(key, previous, Waiting, false)];
      tails := tails[key := call];
    }

    method Enter(call: nat)
      requires Enabled(Model(), Start(call))
      modifies this`calls
      ensures Model() == Apply(old(Model()), Start(call))
    {
      calls := calls[call := calls[call].(phase := Running(false))];
    }

    method LeaseExpired(call: nat)
      requires Enabled(Model(), Expire(call))
      modifies this`calls
      ensures Model() == Apply(old(Model()), Expire(call))
    {
      calls := calls[call := calls[call].(phase := Running(true))];
    }

    method WorkSettled(call: nat)
      requires Enabled(Model(), Finish(call))
      modifies this`calls
      ensures Model() == Apply(old(Model()), Finish(call))
    {
      calls := calls[call := calls[call].(phase := Finished)];
    }

    method WaitTimedOut(call: nat)
      requires Enabled(Model(), TimeOut(call))
      modifies this`calls
      ensures Model() == Apply(old(Model()), TimeOut(call))
    {
      calls := calls[call := calls[call].(phase := TimedOut)];
    }

    method Microtask(call: nat)
      requires Enabled(Model(), CleanUp(call))
      modifies this
      ensures Model() == Apply(old(Model()), CleanUp(call))
      ensures var key := old(calls)[call].key;
        tails == if key in old(tails) && old(tails)[key] == call then old(tails) - {key} else old(tails)
    {
      var key := calls[call].key;
      calls := calls[call := calls[call].(cleaned := true)];
      if key in tails && tails[key] == call {
        tails := tails - {key};
      }
    }
  }
}
