/**
 * The database lease behind SqlLeaseLock (packages/storage/src/sql-store.ts).
 *
 * Every replica owns rows under one name. Sections of one replica and key may
 * begin while others are unfinished: the in-process lock in front lets that happen
 * once a waiter has timed out (InProcessLock.TimeOutOverlaps). Database statements
 * are issued and land as separate steps: the time a statement carries is the time
 * it was issued, so a renewal may land late, even after the section that sent it
 * has ended, and so may the DELETE that ends a section.
 */
module LeaseLock {
  import opened Wrappers

  type Replica = nat
  type Key = string

  datatype Lease = Lease(owner: Replica, expiresAt: int)

  type Rows = map<Key, Lease>

  // ----- the three statements --------------------------------------------------------

  predicate CanAcquire(rows: Rows, key: Key, now: int) {
    key in rows ==> rows[key].expiresAt <= now
  }

  predicate Owns(rows: Rows, key: Key, owner: Replica) {
    key in rows && rows[key].owner == owner
  }

  /** The table as an object; each method is one statement and reports whether it changed a row. */
  class LeaseTable {
    var rows: Rows

    constructor ()
      ensures rows == map[]
    {
      rows := map[];
    }

    method TryAcquire(key: Key, owner: Replica, now: int, leaseMs: int) returns (changed: bool)
      modifies this
      ensures changed <==> key !in old(rows) || old(rows)[key].expiresAt <= now
      ensures rows == if changed then old(rows)[key := Lease(owner, now + leaseMs)] else old(rows)
    {
      changed := false;
      if key !in rows || rows[key].expiresAt <= now {
        rows := rows[key := Lease(owner, now + leaseMs)];
        changed := true;
      }
    }

    method Renew(key: Key, owner: Replica, expiresAt: int) returns (changed: bool)
      modifies this
      ensures changed <==> key in old(rows) && old(rows)[key].owner == owner
      ensures rows == if changed then old(rows)[key := Lease(owner, expiresAt)] else old(rows)
    {
      changed := false;
      if key in rows && rows[key].owner == owner {
        rows := rows[key := rows[key].(expiresAt := expiresAt)];
        changed := true;
      }
    }

    method Release(key: Key, owner: Replica)
      modifies this
      ensures rows == if key in old(rows) && old(rows)[key].owner == owner then old(rows) - {key} else old(rows)
    {
      if key in rows && rows[key].owner == owner {
        rows := rows - {key};
      }
    }
  }

  // ----- sections and steps ----------------------------------------------------------

  datatype Phase =
    | Acquiring(asked: Option<int>)  // asked: when the statement in flight was issued
    | Running
    | Releasing                      // the work has settled, the row is still to be deleted
    | Ended

  /**
   * `deadline` is the expiry this replica last wrote for the section, `lapsed`
   * remembers that the clock reached it while the section ran, `late` that the clock
   * reached it while the DELETE was still on its way, and `aborted` that the section
   * was told its row is gone.
   */
  datatype Section = Section(
    replica: Replica, key: Key, phase: Phase, deadline: int, lapsed: bool, late: bool, aborted: bool)

  datatype Renewal = Renewal(section: nat, expiresAt: int)

  datatype State = State(clock: int, rows: Rows, sections: seq<Section>, renewals: seq<Renewal>)

  datatype Step =
    | Begin(replica: Replica, key: Key)           // the in-process lock lets a section in
    | AskRow(section: nat)                        // tryAcquire is issued
    | RowAnswer(section: nat, leaseMs: int)       // ... and lands
    | GiveUp(section: nat)                        // the wait for the row is over
    | AskRenewal(section: nat, leaseMs: int)      // the interval timer issues a renewal
    | RenewalLands(renewal: nat)
    | WorkDone(section: nat)
    | ReleaseRow(section: nat)
    | Tick(ms: nat)

  function Initial(clock: int): State {
    State(clock, map[], [], [])
  }

  predicate Open(c: Section) {
    !c.phase.Ended?
  }

  predicate SameSlot(c: Section, d: Section) {
    c.replica == d.replica && c.key == d.key
  }

  predicate Enabled(s: State, step: Step) {
    match step
    case Begin(_, _) => true
    case AskRow(i) => i < |s.sections| && s.sections[i].phase == Acquiring(None)
    case RowAnswer(i, _) => i < |s.sections| && s.sections[i].phase.Acquiring? && s.sections[i].phase.asked.Some?
    case GiveUp(i) => i < |s.sections| && s.sections[i].phase == Acquiring(None)
    case AskRenewal(i, _) => i < |s.sections| && s.sections[i].phase.Running?
    case RenewalLands(n) => n < |s.renewals| && s.renewals[n].section < |s.sections|
    case WorkDone(i) => i < |s.sections| && s.sections[i].phase.Running?
    case ReleaseRow(i) => i < |s.sections| && s.sections[i].phase.Releasing?
    case Tick(_) => true
  }

  function WithSection(s: State, i: nat, c: Section): State
    requires i < |s.sections|
  {
    s.(sections := s.sections[i := c])
  }

  /** The expiry a replica wrote becomes the deadline of its unfinished section on that key. */
  function Extended(sections: seq<Section>, replica: Replica, key: Key, expiresAt: int): (r: seq<Section>)
    ensures |r| == |sections|
  {
    seq(|sections|, i requires 0 <= i < |sections| =>
      if sections[i].replica == replica && sections[i].key == key && Open(sections[i])
      then sections[i].(deadline := expiresAt) else sections[i])
  }

  /** Marks the sections whose deadline the clock has reached before their row is gone. */
  function Observe(s: State): (r: State)
    ensures |r.sections| == |s.sections|
  {
    s.(sections := seq(|s.sections|, i requires 0 <= i < |s.sections| =>
      if s.sections[i].phase.Running? && s.sections[i].deadline <= s.clock
      then s.sections[i].(lapsed := true)
      else if s.sections[i].phase.Releasing? && s.sections[i].deadline <= s.clock
      then s.sections[i].(late := true) else s.sections[i]))
  }

  function Effect(s: State, step: Step): (r: State)
    requires Enabled(s, step)
    ensures |r.sections| == |s.sections| + if step.Begin? then 1 else 0
  {
    match step
    case Begin(replica, key) =>
      s.(sections := s.sections + [Section(replica, key, Acquiring(None), 0, false, false, false)])
    case AskRow(i) => WithSection(s, i, s.sections[i].(phase := Acquiring(Some(s.clock))))
    case RowAnswer(i, leaseMs) =>
      var c := s.sections[i];
      var now := c.phase.asked.value;
      if CanAcquire(s.rows, c.key, now) then
        WithSection(s, i, c.(phase := Running, deadline := now + leaseMs))
          .(rows := s.rows[c.key := Lease(c.replica, now + leaseMs)])
      else
        WithSection(s, i, c.(phase := Acquiring(None)))
    case GiveUp(i) => WithSection(s, i, s.sections[i].(phase := Ended))
    case AskRenewal(i, leaseMs) => s.(renewals := s.renewals + [Renewal(i, s.clock + leaseMs)])
    case RenewalLands(n) =>
      var renewal := s.renewals[n];
      var c := s.sections[renewal.section];
      var rest := s.renewals[..n] + s.renewals[n + 1..];
      if Owns(s.rows, c.key, c.replica) then
        s.(renewals := rest,
           rows := s.rows[c.key := Lease(c.replica, renewal.expiresAt)],
           sections := Extended(s.sections, c.replica, c.key, renewal.expiresAt))
      else
        WithSection(s, renewal.section, c.(aborted := true)).(renewals := rest)
    case WorkDone(i) => WithSection(s, i, s.sections[i].(phase := Releasing))
    case ReleaseRow(i) =>
      var c := s.sections[i];
      WithSection(s, i, c.(phase := Ended))
        .(rows := if Owns(s.rows, c.key, c.replica) then s.rows - {c.key} else s.rows)
    case Tick(ms) => s.(clock := s.clock + ms)
  }

  function Apply(s: State, step: Step): (r: State)
    requires Enabled(s, step)
    ensures |r.sections| == |s.sections| + if step.Begin? then 1 else 0
  {
    Observe(Effect(s, step))
  }

  // ----- rows belong to their owners --------------------------------------------------

  predicate Holds(c: Section) {
    c.phase.Running? || c.phase.Releasing?
  }

  ghost predicate NoFutureStamps(s: State) {
    forall i :: 0 <= i < |s.sections| && s.sections[i].phase.Acquiring? && s.sections[i].phase.asked.Some?
      ==> s.sections[i].phase.asked.value <= s.clock
  }

  /** The row says that section `i` has until its deadline, which is not over. */
  ghost predicate Owning(s: State, i: nat)
    requires i < |s.sections|
  {
    var c := s.sections[i];
    s.clock < c.deadline && c.key in s.rows && s.rows[c.key] == Lease(c.replica, c.deadline)
  }

  /**
   * A lease that has not run out changes only through the replica holding it: no
   * other replica can take, extend or delete the row, however late its
   * statements land.
   */
  lemma LiveRowBelongsToItsOwner(s: State, step: Step, key: Key)
    requires NoFutureStamps(s) && Enabled(s, step)
    requires key in s.rows && s.clock < s.rows[key].expiresAt
    requires key !in Apply(s, step).rows || Apply(s, step).rows[key] != s.rows[key]
    ensures step.RenewalLands? || step.ReleaseRow?
    ensures var c := s.sections[if step.RenewalLands? then s.renewals[step.renewal].section else step.section];
            c.key == key && c.replica == s.rows[key].owner
  {
  }

  /** Who holds after a step held before, or has just taken a row that was free. */
  lemma HolderOrigin(s: State, step: Step, i: nat)
    requires Enabled(s, step) && i < |Apply(s, step).sections| && Holds(Apply(s, step).sections[i])
    ensures var c := Apply(s, step).sections[i];
      && i < |s.sections| && SameSlot(c, s.sections[i])
      && (Holds(s.sections[i])
          || (step.RowAnswer? && step.section == i && s.sections[i].phase.Acquiring? && s.sections[i].phase.asked.Some?
              && CanAcquire(s.rows, c.key, s.sections[i].phase.asked.value)))
      && (Holds(s.sections[i]) ==> (s.sections[i].lapsed ==> c.lapsed) && (s.sections[i].late ==> c.late))
      && (Holds(s.sections[i]) && c.phase.Running? ==> s.sections[i].phase.Running?)
  {
  }

  /** A section that owns its row keeps owning it, unless its time is over or another one's DELETE takes the row. */
  lemma OwningStays(s: State, step: Step, i: nat)
    requires NoFutureStamps(s) && Enabled(s, step) && i < |s.sections| && Holds(s.sections[i]) && Owning(s, i)
    requires Holds(Apply(s, step).sections[i])
    ensures Owning(Apply(s, step), i)
         || Apply(s, step).sections[i].lapsed || Apply(s, step).sections[i].late
         || (step.ReleaseRow? && step.section != i && SameSlot(s.sections[step.section], s.sections[i])
             && Owns(s.rows, s.sections[i].key, s.sections[i].replica))
  {
    var t, key := Apply(s, step), s.sections[i].key;
    if key !in t.rows || t.rows[key] != s.rows[key] { LiveRowBelongsToItsOwner(s, step, key); }
  }

  lemma TakerOwns(s: State, step: Step)
    requires NoFutureStamps(s) && Enabled(s, step) && step.RowAnswer?
    requires Holds(Apply(s, step).sections[step.section])
    ensures Owning(Apply(s, step), step.section) || Apply(s, step).sections[step.section].lapsed
  {
  }

  /** Nobody takes a row that is owned. */
  lemma OwnedIsNotFree(s: State, i: nat, j: nat)
    requires NoFutureStamps(s) && i < |s.sections| && Owning(s, i)
    requires j < |s.sections| && s.sections[j].phase.Acquiring? && s.sections[j].phase.asked.Some?
    requires s.sections[j].key == s.sections[i].key
    ensures !CanAcquire(s.rows, s.sections[j].key, s.sections[j].phase.asked.value)
  {
  }

  lemma StampsStayPast(s: State, step: Step)
    requires NoFutureStamps(s) && Enabled(s, step)
    ensures NoFutureStamps(Apply(s, step))
  {
  }

  // ----- what statements achieve --------------------------------------------------------

  /**
   * A waiting section that asks for the row once a time has passed gets it exactly when
   * the row is missing or its lease is over by then; in particular a row whose owner is
   * gone is free as soon as the rest of its lease has passed, and stays free.
   */
  lemma FreeRowIsTaken(s: State, i: nat, ms: nat, leaseMs: nat)
    requires i < |s.sections| && s.sections[i].phase == Acquiring(None)
    ensures Enabled(Apply(s, Tick(ms)), AskRow(i))
    ensures Enabled(Apply(Apply(s, Tick(ms)), AskRow(i)), RowAnswer(i, leaseMs))
    ensures var key, t := s.sections[i].key, Apply(Apply(Apply(s, Tick(ms)), AskRow(i)), RowAnswer(i, leaseMs));
      if key !in s.rows || s.rows[key].expiresAt <= s.clock + ms
      then t.sections[i].phase.Running? && t.rows == s.rows[key := Lease(s.sections[i].replica, s.clock + ms + leaseMs)]
      else t.sections[i].phase == Acquiring(None) && t.rows == s.rows
  {
    var u := Apply(s, Tick(ms));
    assert u.sections[i] == s.sections[i];
    var v := Apply(u, AskRow(i));
    assert v.sections[i] == s.sections[i].(phase := Acquiring(Some(s.clock + ms)));
  }

  /** A renewal that lands on its section's own row moves the row's expiry and the section's deadline to what was asked for. */
  lemma RenewalExtends(s: State, i: nat, leaseMs: nat)
    requires i < |s.sections| && s.sections[i].phase.Running?
    requires s.sections[i].key in s.rows && s.rows[s.sections[i].key].owner == s.sections[i].replica
    ensures Enabled(s, AskRenewal(i, leaseMs)) && Enabled(Apply(s, AskRenewal(i, leaseMs)), RenewalLands(|s.renewals|))
    ensures var t := Apply(Apply(s, AskRenewal(i, leaseMs)), RenewalLands(|s.renewals|));
      && t.rows == s.rows[s.sections[i].key := Lease(s.sections[i].replica, s.clock + leaseMs)]
      && t.sections[i].deadline == s.clock + leaseMs
  {
    var u := Apply(s, AskRenewal(i, leaseMs));
    assert u.renewals[|s.renewals|] == Renewal(i, s.clock + leaseMs);
    assert u.sections[i].phase.Running? && u.sections[i].key == s.sections[i].key && u.sections[i].replica == s.sections[i].replica;
  }

  /** The flags say no more than they should: the deadline was reached while the section ran, or was to be deleted. */
  lemma FlagsMeanOverdue(s: State, step: Step, i: nat)
    requires Enabled(s, step) && i < |Apply(s, step).sections|
    ensures var c, t := Apply(s, step).sections[i], Apply(s, step);
      && (c.lapsed ==> (i < |s.sections| && s.sections[i].lapsed) || (c.phase.Running? && c.deadline <= t.clock))
      && (c.late ==> (i < |s.sections| && s.sections[i].late) || (c.phase.Releasing? && c.deadline <= t.clock))
      && (c.phase.Running? && c.deadline <= t.clock ==> c.lapsed)
      && (c.phase.Releasing? && c.deadline <= t.clock ==> c.late)
  {
  }

  // ----- while every DELETE lands in time ----------------------------------------------

  /** No lease on `key` has lapsed before its DELETE has landed. */
  ghost predicate OnTime(s: State, key: Key) {
    forall i :: 0 <= i < |s.sections| && s.sections[i].key == key ==> !s.sections[i].lapsed && !s.sections[i].late
  }

  /** At most one section of `key` is between taking and giving up the row. */
  ghost predicate OneHolder(s: State, key: Key) {
    forall i, j ::
      (0 <= i < j < |s.sections| && s.sections[i].key == key && s.sections[j].key == key && Holds(s.sections[i])) ==>
        !Holds(s.sections[j])
  }

  ghost predicate HoldersOwn(s: State, key: Key) {
    forall i :: 0 <= i < |s.sections| && s.sections[i].key == key && Holds(s.sections[i]) ==> Owning(s, i)
  }

  ghost predicate Sound(s: State) {
    && NoFutureStamps(s)
    && forall key :: OnTime(s, key) ==> OneHolder(s, key) && HoldersOwn(s, key)
  }

  /** Lapses are remembered. */
  lemma OnTimeBefore(s: State, step: Step, key: Key)
    requires Enabled(s, step) && OnTime(Apply(s, step), key)
    ensures OnTime(s, key)
  {
    var t := Apply(s, step);
    forall i | 0 <= i < |s.sections| && s.sections[i].key == key ensures !s.sections[i].lapsed && !s.sections[i].late {
      FlagsStay(s, step, i);
      assert !t.sections[i].lapsed && !t.sections[i].late;
    }
  }

  lemma FlagsStay(s: State, step: Step, i: nat)
    requires Enabled(s, step) && i < |s.sections|
    ensures var c := Apply(s, step).sections[i];
            SameSlot(c, s.sections[i]) && (s.sections[i].lapsed ==> c.lapsed) && (s.sections[i].late ==> c.late)
  {
  }

  lemma StepKeepsHolder(s: State, step: Step, key: Key)
    requires Sound(s) && Enabled(s, step) && OnTime(Apply(s, step), key)
    ensures OneHolder(Apply(s, step), key) && HoldersOwn(Apply(s, step), key)
  {
    var t := Apply(s, step);
    OnTimeBefore(s, step, key);
    forall i | 0 <= i < |t.sections| && t.sections[i].key == key && Holds(t.sections[i]) ensures Owning(t, i) {
      HolderOrigin(s, step, i);
      if Holds(s.sections[i]) {
        OwningStays(s, step, i);
      } else {
        TakerOwns(s, step);
      }
    }
    forall i, j | 0 <= i < j < |t.sections| && t.sections[i].key == key && t.sections[j].key == key && Holds(t.sections[i])
      ensures !Holds(t.sections[j])
    {
      HolderOrigin(s, step, i);
      if Holds(t.sections[j]) {
        HolderOrigin(s, step, j);
        if Holds(s.sections[i]) { OwnedIsNotFree(s, i, j); } else { OwnedIsNotFree(s, j, i); }
      }
    }
  }

  lemma StepKeepsSound(s: State, step: Step)
    requires Sound(s) && Enabled(s, step)
    ensures Sound(Apply(s, step))
  {
    var t := Apply(s, step);
    StampsStayPast(s, step);
    forall key | OnTime(t, key) ensures OneHolder(t, key) && HoldersOwn(t, key) { StepKeepsHolder(s, step, key); }
  }

  // ----- while only running sections keep their leases ---------------------------------

  ghost predicate Protected(s: State, i: nat)
    requires i < |s.sections|
  {
    s.sections[i].phase.Running? && !s.sections[i].lapsed ==> Owning(s, i)
  }

  /** Two sections of one key run at once only if the lease of one of them lapsed while it ran. */
  ghost predicate Exclusive(s: State) {
    forall i, j ::
      (0 <= i < j < |s.sections| && s.sections[i].key == s.sections[j].key
        && s.sections[i].phase.Running? && s.sections[j].phase.Running?) ==>
        s.sections[i].lapsed || s.sections[j].lapsed
  }

  ghost predicate Inv(s: State) {
    && NoFutureStamps(s)
    && (forall i :: 0 <= i < |s.sections| ==> Protected(s, i))
    && Exclusive(s)
  }

  /**
   * The one step that breaks it: a DELETE lands although another section of the same
   * replica has the row by now. Rows carry the replica's name only.
   */
  predicate Steals(s: State, step: Step)
    requires Enabled(s, step)
  {
    step.ReleaseRow? && exists j ::
      0 <= j < |s.sections| && j != step.section && SameSlot(s.sections[j], s.sections[step.section])
      && s.sections[j].phase.Running? && !s.sections[j].lapsed
  }

  lemma StepKeepsProtection(s: State, step: Step, i: nat)
    requires Inv(s) && Enabled(s, step) && !Steals(s, step) && i < |Apply(s, step).sections|
    ensures Protected(Apply(s, step), i)
  {
    var t := Apply(s, step);
    if t.sections[i].phase.Running? && !t.sections[i].lapsed {
      HolderOrigin(s, step, i);
      if Holds(s.sections[i]) {
        assert Protected(s, i);
        OwningStays(s, step, i);
      } else {
        TakerOwns(s, step);
      }
      NotLateWhileRunning(s, step, i);
    }
  }

  lemma NotLateWhileRunning(s: State, step: Step, i: nat)
    requires Enabled(s, step) && i < |s.sections| && Apply(s, step).sections[i].phase.Running?
    ensures s.sections[i].phase.Running? ==> Apply(s, step).sections[i].late == s.sections[i].late
    ensures Apply(s, step).sections[i].deadline <= Apply(s, step).clock ==> Apply(s, step).sections[i].lapsed
  {
  }

  lemma StepKeepsInv(s: State, step: Step)
    requires Inv(s) && Enabled(s, step) && !Steals(s, step)
    ensures Inv(Apply(s, step))
  {
    var t := Apply(s, step);
    StampsStayPast(s, step);
    forall i | 0 <= i < |t.sections| ensures Protected(t, i) { StepKeepsProtection(s, step, i); }
    forall i, j | 0 <= i < j < |t.sections| && t.sections[i].key == t.sections[j].key
      && t.sections[i].phase.Running? && t.sections[j].phase.Running?
      ensures t.sections[i].lapsed || t.sections[j].lapsed
    {
      HolderOrigin(s, step, i);
      HolderOrigin(s, step, j);
      assert Protected(s, i) && Protected(s, j);
      if Holds(s.sections[i]) && !Holds(s.sections[j]) && !s.sections[i].lapsed { OwnedIsNotFree(s, i, j); }
      if !Holds(s.sections[i]) && Holds(s.sections[j]) && !s.sections[j].lapsed { OwnedIsNotFree(s, j, i); }
    }
  }

  // ----- runs ------------------------------------------------------------------------

  /** The state a list of steps leads to; None when one of them is not enabled. */
  ghost function Run(s: State, steps: seq<Step>): Option<State> {
    if steps == [] then Some(s) else
    match Run(s, steps[..|steps| - 1])
    case None => None
    case Some(t) => if Enabled(t, steps[|steps| - 1]) then Some(Apply(t, steps[|steps| - 1])) else None
  }

  lemma {:induction false} RunKeepsSound(s: State, steps: seq<Step>)
    requires Sound(s) && Run(s, steps).Some?
    ensures Sound(Run(s, steps).value)
    decreases |steps|
  {
    hide Sound, Apply, Enabled;
    if steps != [] {
      RunKeepsSound(s, steps[..|steps| - 1]);
      StepKeepsSound(Run(s, steps[..|steps| - 1]).value, steps[|steps| - 1]);
    }
  }

  /**
   * The lease lock excludes, over every run of any number of replicas, whatever their
   * in-process locks let in: while no lease on a key lapses before its DELETE has
   * landed, at most one section of the key is between taking and giving up the row.
   */
  lemma LeaseLockIsSafe(clock: int, steps: seq<Step>, key: Key)
    requires Run(Initial(clock), steps).Some? && OnTime(Run(Initial(clock), steps).value, key)
    ensures OneHolder(Run(Initial(clock), steps).value, key)
  {
    RunKeepsSound(Initial(clock), steps);
  }

  ghost predicate NeverSteals(s: State, steps: seq<Step>) {
    steps == [] || (
      && NeverSteals(s, steps[..|steps| - 1])
      && match Run(s, steps[..|steps| - 1])
         case None => true
         case Some(t) => Enabled(t, steps[|steps| - 1]) ==> !Steals(t, steps[|steps| - 1]))
  }

  lemma {:induction false} RunKeepsInv(s: State, steps: seq<Step>)
    requires Inv(s) && Run(s, steps).Some? && NeverSteals(s, steps)
    ensures Inv(Run(s, steps).value)
    decreases |steps|
  {
    hide Inv, Apply, Enabled, Steals;
    if steps != [] {
      RunKeepsInv(s, steps[..|steps| - 1]);
      StepKeepsInv(Run(s, steps[..|steps| - 1]).value, steps[|steps| - 1]);
    }
  }

  /** As long as no DELETE takes a running section's row, leases only have to last while sections run. */
  lemma ExclusiveUnlessStolen(clock: int, steps: seq<Step>)
    requires Run(Initial(clock), steps).Some? && NeverSteals(Initial(clock), steps)
    ensures Exclusive(Run(Initial(clock), steps).value)
  {
    RunKeepsInv(Initial(clock), steps);
  }

  /** A section begins although another one of its replica and key is unfinished. */
  predicate Crowds(s: State, step: Step) {
    step.Begin? && exists i ::
      0 <= i < |s.sections| && s.sections[i].replica == step.replica && s.sections[i].key == step.key && Open(s.sections[i])
  }

  ghost predicate OnePerSlot(s: State) {
    forall i, j ::
      (0 <= i < j < |s.sections| && SameSlot(s.sections[i], s.sections[j]) && Open(s.sections[i])) ==> !Open(s.sections[j])
  }

  lemma StepKeepsSlots(s: State, step: Step)
    requires OnePerSlot(s) && Enabled(s, step) && !Crowds(s, step)
    ensures OnePerSlot(Apply(s, step)) && !Steals(s, step)
  {
    var t := Apply(s, step);
    forall i, j | 0 <= i < j < |t.sections| && SameSlot(t.sections[i], t.sections[j]) && Open(t.sections[i])
      ensures !Open(t.sections[j])
    {
      OpenBefore(s, step, i);
      if Open(t.sections[j]) { OpenBefore(s, step, j); }
      if j < |s.sections| { assert SameSlot(s.sections[i], s.sections[j]); }
    }
  }

  lemma OpenBefore(s: State, step: Step, i: nat)
    requires Enabled(s, step) && i < |Apply(s, step).sections| && Open(Apply(s, step).sections[i])
    ensures if i < |s.sections| then Open(s.sections[i]) && SameSlot(Apply(s, step).sections[i], s.sections[i])
            else step.Begin? && i == |s.sections| && Apply(s, step).sections[i].replica == step.replica
                 && Apply(s, step).sections[i].key == step.key
  {
  }

  ghost predicate NeverCrowds(s: State, steps: seq<Step>) {
    steps == [] || (
      && NeverCrowds(s, steps[..|steps| - 1])
      && match Run(s, steps[..|steps| - 1])
         case None => true
         case Some(t) => !Crowds(t, steps[|steps| - 1]))
  }

  lemma {:induction false} UncrowdedNeverSteals(s: State, steps: seq<Step>)
    requires OnePerSlot(s) && Run(s, steps).Some? && NeverCrowds(s, steps)
    ensures OnePerSlot(Run(s, steps).value) && NeverSteals(s, steps)
    decreases |steps|
  {
    hide OnePerSlot, Apply, Enabled, Steals, Crowds;
    if steps != [] {
      UncrowdedNeverSteals(s, steps[..|steps| - 1]);
      StepKeepsSlots(Run(s, steps[..|steps| - 1]).value, steps[|steps| - 1]);
    }
  }

  /** With one unfinished section per replica and key, leases only have to last while sections run. */
  lemma UncrowdedRunsAreExclusive(clock: int, steps: seq<Step>)
    requires Run(Initial(clock), steps).Some? && NeverCrowds(Initial(clock), steps)
    ensures Exclusive(Run(Initial(clock), steps).value)
  {
    UncrowdedNeverSteals(Initial(clock), steps);
    ExclusiveUnlessStolen(clock, steps);
  }

  /** Whatever the sections of one replica still do after losing a key. */
  ghost predicate LoserStep(s: State, step: Step, replica: Replica) {
    match step
    case AskRenewal(i, _) => i < |s.sections| && s.sections[i].replica == replica
    case RenewalLands(n) =>
      n < |s.renewals| && s.renewals[n].section < |s.sections| && s.sections[s.renewals[n].section].replica == replica
    case WorkDone(i) => i < |s.sections| && s.sections[i].replica == replica
    case ReleaseRow(i) => i < |s.sections| && s.sections[i].replica == replica
    case Tick(_) => true
    case _ => false
  }

  ghost predicate OnlyLoser(s: State, steps: seq<Step>, replica: Replica) {
    steps == [] || (
      && OnlyLoser(s, steps[..|steps| - 1], replica)
      && match Run(s, steps[..|steps| - 1])
         case None => false
         case Some(t) => LoserStep(t, steps[|steps| - 1], replica))
  }

  /**
   * Once another replica has the row, the loser neither extends nor deletes it,
   * however many renewals and releases it still has in flight.
   */
  lemma {:induction false} LoserNeverTouchesTheRow(s: State, steps: seq<Step>, replica: Replica, key: Key)
    requires Run(s, steps).Some? && OnlyLoser(s, steps, replica)
    requires key in s.rows && s.rows[key].owner != replica
    ensures var t := Run(s, steps).value; key in t.rows && t.rows[key] == s.rows[key]
    decreases |steps|
  {
    if steps != [] {
      LoserNeverTouchesTheRow(s, steps[..|steps| - 1], replica, key);
    }
  }

  lemma Extend(s: State, steps: seq<Step>, t: State, step: Step)
    requires Run(s, steps) == Some(t) && Enabled(t, step)
    ensures Run(s, steps + [step]) == Some(Apply(t, step))
  {
    assert (steps + [step])[..|steps|] == steps;
  }

  /** A replica's section number `n` begins, asks for a free row and gets it. */
  function Taking(replica: Replica, key: Key, n: nat, leaseMs: nat): seq<Step> {
    [Begin(replica, key), AskRow(n), RowAnswer(n, leaseMs)]
  }

  lemma BeginIsFree(s: State, replica: Replica, key: Key)
    ensures Enabled(s, Begin(replica, key))
  {
  }

  lemma ObservedOnce(s: State)
    ensures Observe(Observe(s)) == Observe(s)
  {
    assert Observe(Observe(s)).sections == Observe(s).sections;
  }

  /** Asking for a free row and getting it leaves all other sections as they were. */
  lemma TakesRow(s: State, replica: Replica, key: Key, leaseMs: nat)
    requires CanAcquire(s.rows, key, s.clock)
    ensures var n := |s.sections|;
            && Enabled(Apply(s, Begin(replica, key)), AskRow(n))
            && Enabled(Apply(Apply(s, Begin(replica, key)), AskRow(n)), RowAnswer(n, leaseMs))
            && var t := Apply(Apply(Apply(s, Begin(replica, key)), AskRow(n)), RowAnswer(n, leaseMs));
            && |t.sections| == n + 1 && t.clock == s.clock && t.rows == s.rows[key := Lease(replica, s.clock + leaseMs)]
            && (forall i :: 0 <= i < n ==> t.sections[i].phase == s.sections[i].phase && SameSlot(t.sections[i], s.sections[i]))
            && t.sections[n].phase.Running? && t.sections[n].replica == replica && t.sections[n].key == key
            && (leaseMs > 0 ==> !t.sections[n].lapsed && !t.sections[n].late)
            && (Observe(s) == s ==> forall i :: 0 <= i < n ==> t.sections[i] == s.sections[i])
            && Observe(t) == t
  {
    var n := |s.sections|;
    var s1 := Apply(s, Begin(replica, key));
    assert s1.sections[n].phase == Acquiring(None);
    var s2 := Apply(s1, AskRow(n));
    assert s2.sections[n].phase == Acquiring(Some(s.clock));
    ObservedOnce(Effect(s2, RowAnswer(n, leaseMs)));
    if Observe(s) == s {
      forall i | 0 <= i < n ensures s1.sections[i] == s.sections[i] { assert Observe(s).sections[i] == s.sections[i]; }
    }
  }

  /** The same as the end of a run. */
  lemma ReplicaGetsRow(s0: State, steps: seq<Step>, s: State, replica: Replica, key: Key, leaseMs: nat)
    returns (t: State)
    requires Run(s0, steps) == Some(s)
    requires CanAcquire(s.rows, key, s.clock)
    ensures Run(s0, steps + Taking(replica, key, |s.sections|, leaseMs)) == Some(t)
    ensures |t.sections| == |s.sections| + 1 && t.clock == s.clock
    ensures t.rows == s.rows[key := Lease(replica, s.clock + leaseMs)]
    ensures forall i :: 0 <= i < |s.sections| ==>
      t.sections[i].phase == s.sections[i].phase && SameSlot(t.sections[i], s.sections[i])
    ensures Observe(s) == s ==> forall i :: 0 <= i < |s.sections| ==> t.sections[i] == s.sections[i]
    ensures var c := t.sections[|s.sections|];
      c.phase.Running? && c.replica == replica && c.key == key && (leaseMs > 0 ==> !c.lapsed && !c.late)
    ensures Observe(t) == t
  {
    hide Run;
    TakesRow(s, replica, key, leaseMs);
    hide Apply, Enabled, Observe;
    var n := |s.sections|;
    BeginIsFree(s, replica, key);
    var s1 := Apply(s, Begin(replica, key));
    var s2 := Apply(s1, AskRow(n));
    t := Apply(s2, RowAnswer(n, leaseMs));
    Extend(s0, steps, s, Begin(replica, key));
    Extend(s0, steps + [Begin(replica, key)], s1, AskRow(n));
    Extend(s0, steps + [Begin(replica, key)] + [AskRow(n)], s2, RowAnswer(n, leaseMs));
    assert steps + [Begin(replica, key)] + [AskRow(n)] + [RowAnswer(n, leaseMs)]
        == steps + [Begin(replica, key), AskRow(n), RowAnswer(n, leaseMs)];
  }

  /** The condition is needed: a lease that lapses lets a second replica in beside the first. */
  lemma LapseOverlaps(clock: int, key: Key, leaseMs: nat, ms: nat)
    requires ms >= leaseMs
    ensures var after := Run(Initial(clock), Taking(0, key, 0, leaseMs) + [Tick(ms)] + Taking(1, key, 1, leaseMs));
            && after.Some? && |after.value.sections| == 2
            && after.value.sections[0].phase.Running? && after.value.sections[1].phase.Running?
  {
    var start := Initial(clock);
    assert CanAcquire(start.rows, key, start.clock);
    NoSteps(start);
    var first := Taking(0, key, 0, leaseMs);
    hide Taking, Run;
    var s1 := ReplicaGetsRow(start, [], start, 0, key, leaseMs);
    assert [] + first == first;
    var s2 := Apply(s1, Tick(ms));
    Extend(start, first, s1, Tick(ms));
    var s3 := ReplicaGetsRow(start, first + [Tick(ms)], s2, 1, key, leaseMs);
  }

  // ----- when running sections' leases are not enough ---------------------------------

  /**
   * Exactly the stealing steps break it: after one, any other replica gets in beside
   * the running section although neither lease has lapsed.
   */
  lemma StealingStepOverlaps(s: State, step: Step, other: Replica, leaseMs: nat)
    requires Inv(s) && Enabled(s, step) && Steals(s, step) && leaseMs > 0
    ensures var key, n := s.sections[step.section].key, |s.sections|;
            var after := Run(s, [step] + Taking(other, key, n, leaseMs));
            after.Some? && !Exclusive(after.value)
  {
    var key := s.sections[step.section].key;
    var j :| 0 <= j < |s.sections| && j != step.section && SameSlot(s.sections[j], s.sections[step.section])
             && s.sections[j].phase.Running? && !s.sections[j].lapsed;
    assert Protected(s, j);
    var t := Apply(s, step);
    RowTaken(s, step, j);
    ObservedOnce(Effect(s, step));
    hide Run, Enabled, Owning, Protected, Steals, Inv;
    NoSteps(s);
    Extend(s, [], s, step);
    assert [] + [step] == [step];
    var u := ReplicaGetsRow(s, [step], t, other, key, leaseMs);
    TwoRun(u, j, |s.sections|);
  }

  lemma TwoRun(s: State, i: nat, j: nat)
    requires i < j < |s.sections| && s.sections[i].key == s.sections[j].key
    requires s.sections[i].phase.Running? && s.sections[j].phase.Running? && !s.sections[i].lapsed && !s.sections[j].lapsed
    ensures !Exclusive(s)
  {
  }

  lemma RowTaken(s: State, step: Step, j: nat)
    requires Enabled(s, step) && step.ReleaseRow? && j < |s.sections| && j != step.section
    requires SameSlot(s.sections[j], s.sections[step.section]) && s.sections[j].phase.Running? && !s.sections[j].lapsed
    requires Owning(s, j)
    ensures var t := Apply(s, step);
            && |t.sections| == |s.sections| && t.sections[j] == s.sections[j]
            && s.sections[step.section].key !in t.rows
  {
  }

  /** A slow DELETE removes the row a newcomer of the same replica has taken meanwhile. */
  lemma LateDeleteTakesRow(clock: int, key: Key)
    returns (t: State)
    ensures Run(Initial(clock), Taking(0, key, 0, 10) + [WorkDone(0)] + [Tick(10)] + Taking(0, key, 1, 100) + [ReleaseRow(0)]) == Some(t)
    ensures |t.sections| == 2 && t.sections[1].phase.Running? && !t.sections[0].lapsed && !t.sections[1].lapsed
    ensures CanAcquire(t.rows, key, t.clock) && Observe(t) == t
  {
    var start := Initial(clock);
    assert start.rows == map[] && start.sections == [] && CanAcquire(start.rows, key, start.clock);
    hide *;
    var first, second := Taking(0, key, 0, 10), Taking(0, key, 1, 100);
    NoSteps(start);
    assert [] + first == first;
    var s1 := ReplicaGetsRow(start, [], start, 0, key, 10);
    LateDelete(s1, key);
    var s2 := Apply(s1, WorkDone(0));
    var s3 := Apply(s2, Tick(10));
    Extend(start, first, s1, WorkDone(0));
    Extend(start, first + [WorkDone(0)], s2, Tick(10));
    var s4 := ReplicaGetsRow(start, first + [WorkDone(0)] + [Tick(10)], s3, 0, key, 100);
    t := Apply(s4, ReleaseRow(0));
    DeleteTakesRow(s4, key);
    Extend(start, first + [WorkDone(0)] + [Tick(10)] + second, s4, ReleaseRow(0));
  }

  /**
   * It does happen: a section's DELETE is slow, its lease runs out, a newcomer of the
   * same replica takes the row, the DELETE removes it, and another replica gets in.
   * No lease has lapsed while its section ran.
   */
  lemma LateDeleteOverlaps(clock: int, key: Key)
    ensures var after := Run(Initial(clock),
              Taking(0, key, 0, 10) + [WorkDone(0)] + [Tick(10)] + Taking(0, key, 1, 100) + [ReleaseRow(0)] + Taking(1, key, 2, 100));
            && after.Some? && |after.value.sections| == 3
            && after.value.sections[1].phase.Running? && after.value.sections[2].phase.Running?
            && forall i :: 0 <= i < 3 ==> !after.value.sections[i].lapsed
  {
    hide *;
    var s := LateDeleteTakesRow(clock, key);
    var steps := Taking(0, key, 0, 10) + [WorkDone(0)] + [Tick(10)] + Taking(0, key, 1, 100) + [ReleaseRow(0)];
    var t := ReplicaGetsRow(Initial(clock), steps, s, 1, key, 100);
  }

  /** The first half of that run: the section is done, and its lease runs out before its DELETE lands. */
  lemma LateDelete(s: State, key: Key)
    requires |s.sections| == 1 && s.sections[0].phase.Running? && s.sections[0].replica == 0 && s.sections[0].key == key
    requires s.rows == map[key := Lease(0, s.clock + 10)] && !s.sections[0].lapsed && Observe(s) == s
    ensures Enabled(s, WorkDone(0)) && Enabled(Apply(s, WorkDone(0)), Tick(10))
    ensures var t := Apply(Apply(s, WorkDone(0)), Tick(10));
      && |t.sections| == 1 && t.sections[0].phase.Releasing? && t.sections[0].replica == 0 && t.sections[0].key == key
      && !t.sections[0].lapsed && CanAcquire(t.rows, key, t.clock) && Observe(t) == t
  {
    ObservedOnce(Effect(Apply(s, WorkDone(0)), Tick(10)));
  }

  lemma DeleteTakesRow(s: State, key: Key)
    requires |s.sections| == 2 && s.sections[0].phase.Releasing? && s.sections[0].replica == 0 && s.sections[0].key == key
    requires s.sections[1].phase.Running? && !s.sections[1].lapsed && !s.sections[0].lapsed && Observe(s) == s
    requires key in s.rows && s.rows[key].owner == 0
    ensures Enabled(s, ReleaseRow(0))
    ensures var t := Apply(s, ReleaseRow(0));
      && |t.sections| == 2 && t.sections[1] == s.sections[1] && !t.sections[0].lapsed && CanAcquire(t.rows, key, t.clock)
      && Observe(t) == t
  {
    ObservedOnce(Effect(s, ReleaseRow(0)));
    assert Observe(s).sections[1] == s.sections[1];
  }

  lemma NoSteps(s: State)
    ensures Run(s, []) == Some(s)
  {
  }
}
