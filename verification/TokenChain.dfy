/**
 * What the compare-and-swap guarantees by itself, even when leases lapse, the
 * database fails or the server misbehaves: stored token sets form one chain and
 * no update is lost.
 */
module TokenChain {
  import opened Wrappers
  import opened TokenRefresh
  import Lock = LeaseLock

  /** Equality up to the status column, which other statements may change. */
  predicate SameTokens(a: Row, b: Row) {
    a.version == b.version && a.access == b.access && a.refresh == b.refresh && a.expiresAt == b.expiresAt
  }

  /** The row as the first `n` successful writes left it. */
  ghost function StoredAt(s: State, n: nat): Row
    requires n <= |s.writes|
  {
    if n == 0 then InitialRow else s.writes[n - 1].result
  }

  /** Write `n` was computed from what the write before it stored. */
  ghost predicate Link(s: State, n: nat)
    requires n < |s.writes|
  {
    && SameTokens(s.writes[n].base, StoredAt(s, n))
    && s.writes[n].result == Merge(s.writes[n].base, s.writes[n].tokens)
  }

  /**
   * Every write was computed from what the write before it stored, and the row
   * holds what the last one stored.
   */
  ghost predicate Chained(s: State) {
    && s.row.version == 1 + |s.writes|
    && SameTokens(s.row, StoredAt(s, |s.writes|))
    && forall n: nat :: n < |s.writes| ==> Link(s, n)
  }

  /** `snapshot` is the row as it once was. */
  ghost predicate WasStored(s: State, snapshot: Row) {
    && 1 <= snapshot.version <= 1 + |s.writes|
    && SameTokens(snapshot, StoredAt(s, snapshot.version - 1))
  }

  ghost predicate PcOk(s: State, pc: Pc) {
    match pc
    case Refreshing(snapshot, _) => WasStored(s, snapshot)
    case Answered(snapshot, _, _) => WasStored(s, snapshot)
    case Outrun(snapshot, _, _) => WasStored(s, snapshot) && snapshot.version < s.row.version
    case _ => true
  }

  ghost predicate ExchangeOk(s: State, x: Exchange) {
    match x
    case HasRead(_, snapshot) => WasStored(s, snapshot)
    case HasConsumed(snapshot) => WasStored(s, snapshot)
    case Granted(snapshot, _) => WasStored(s, snapshot)
    case Closed(_) => true
  }

  ghost predicate Inv(s: State) {
    && Chained(s)
    && (forall i :: 0 <= i < |s.pcs| ==> PcOk(s, s.pcs[i]))
    && (forall e :: 0 <= e < |s.exchanges| ==> ExchangeOk(s, s.exchanges[e]))
  }

  lemma StoreKeepsChain(s: State, snapshot: Row, tokens: Tokens)
    requires Chained(s) && WasStored(s, snapshot)
    ensures Chained(Store(s, snapshot, tokens))
  {
    var t := Store(s, snapshot, tokens);
    if s.row.version == snapshot.version {
      forall n: nat | n < |t.writes| ensures Link(t, n) {
        assert StoredAt(t, n) == StoredAt(s, n);
        if n < |s.writes| { assert Link(s, n) && t.writes[n] == s.writes[n]; }
      }
    }
  }

  lemma OldSnapshotsStay(s: State, t: State, snapshot: Row)
    requires WasStored(s, snapshot) && s.writes <= t.writes
    ensures WasStored(t, snapshot)
  {
    assert StoredAt(t, snapshot.version - 1) == StoredAt(s, snapshot.version - 1);
  }

  /** Only the two persisting steps touch the token columns. */
  lemma OtherStepsKeepTokens(s: State, step: Step)
    requires Enabled(s, step) && !step.Persist? && !step.StoreExchange?
    ensures Apply(s, step).writes == s.writes && SameTokens(Apply(s, step).row, s.row)
  {
  }

  lemma PersistStores(s: State, i: nat)
    requires Enabled(s, Persist(i))
    ensures var t := Apply(s, Persist(i));
            var u := Store(s, s.pcs[i].snapshot, s.pcs[i].tokens);
            t.row == u.row && t.writes == u.writes && t.exchanges == s.exchanges
  {
  }

  lemma ExchangeStores(s: State, e: nat)
    requires Enabled(s, StoreExchange(e))
    ensures var t := Apply(s, StoreExchange(e));
            var u := Store(s, s.exchanges[e].snapshot, s.exchanges[e].tokens);
            t.row == u.row && t.writes == u.writes && t.pcs == s.pcs
  {
  }

  lemma SameWritesSameChain(s: State, t: State)
    requires Chained(s) && t.writes == s.writes && SameTokens(t.row, s.row)
    ensures Chained(t)
  {
    forall n: nat | n < |t.writes| ensures Link(t, n) {
      assert StoredAt(t, n) == StoredAt(s, n) && Link(s, n);
    }
  }

  lemma StepKeepsChain(s: State, step: Step)
    requires Inv(s) && Enabled(s, step)
    ensures Chained(Apply(s, step)) && s.writes <= Apply(s, step).writes && s.row.version <= Apply(s, step).row.version
  {
    if step.Persist? {
      var pc := s.pcs[step.section];
      assert PcOk(s, pc);
      StoreKeepsChain(s, pc.snapshot, pc.tokens);
      PersistStores(s, step.section);
      SameWritesSameChain(Store(s, pc.snapshot, pc.tokens), Apply(s, step));
    } else if step.StoreExchange? {
      var x := s.exchanges[step.exchange];
      assert ExchangeOk(s, x);
      StoreKeepsChain(s, x.snapshot, x.tokens);
      ExchangeStores(s, step.exchange);
      SameWritesSameChain(Store(s, x.snapshot, x.tokens), Apply(s, step));
    } else {
      OtherStepsKeepTokens(s, step);
      SameWritesSameChain(s, Apply(s, step));
    }
  }

  ghost predicate HasSnapshot(pc: Pc) {
    pc.Refreshing? || pc.Answered? || pc.Outrun?
  }

  /** Where the snapshot of a section comes from: the row it reads now, or the one it already had. */
  lemma SnapshotOrigin(s: State, step: Step, i: nat)
    requires Enabled(s, step) && i < |Apply(s, step).pcs| && HasSnapshot(Apply(s, step).pcs[i])
    ensures i < |s.pcs|
    ensures var pc, pc' := s.pcs[i], Apply(s, step).pcs[i];
            || pc' == pc
            || (step.Reread? && pc'.Refreshing? && pc'.snapshot == s.row)
            || (HasSnapshot(pc) && !pc'.Outrun? && pc'.snapshot == pc.snapshot)
            || (step == Persist(i) && pc.Answered? && pc'.Outrun? && pc'.snapshot == pc.snapshot
                && s.row.version != pc.snapshot.version)
  {
  }

  lemma ExchangeOrigin(s: State, step: Step, e: nat)
    requires Enabled(s, step) && e < |Apply(s, step).exchanges|
    ensures var x' := Apply(s, step).exchanges[e];
            || x'.Closed?
            || (e >= |s.exchanges| && x'.snapshot == s.row)
            || (e < |s.exchanges| && !s.exchanges[e].Closed? && x'.snapshot == s.exchanges[e].snapshot)
  {
  }

  lemma RowIsStored(s: State)
    requires Chained(s)
    ensures WasStored(s, s.row)
  {
  }

  lemma StepKeepsPcs(s: State, step: Step, i: nat)
    requires Inv(s) && Enabled(s, step) && i < |Apply(s, step).pcs|
    ensures PcOk(Apply(s, step), Apply(s, step).pcs[i])
  {
    var t := Apply(s, step);
    StepKeepsChain(s, step);
    if HasSnapshot(t.pcs[i]) {
      SnapshotOrigin(s, step, i);
      RowIsStored(s);
      assert PcOk(s, s.pcs[i]);
      OldSnapshotsStay(s, t, t.pcs[i].snapshot);
    }
  }

  lemma StepKeepsExchanges(s: State, step: Step, e: nat)
    requires Inv(s) && Enabled(s, step) && e < |Apply(s, step).exchanges|
    ensures ExchangeOk(Apply(s, step), Apply(s, step).exchanges[e])
  {
    var t := Apply(s, step);
    StepKeepsChain(s, step);
    if !t.exchanges[e].Closed? {
      ExchangeOrigin(s, step, e);
      RowIsStored(s);
      assert e < |s.exchanges| ==> ExchangeOk(s, s.exchanges[e]);
      OldSnapshotsStay(s, t, t.exchanges[e].snapshot);
    }
  }

  lemma StepKeepsInv(s: State, step: Step)
    requires Inv(s) && Enabled(s, step)
    ensures Inv(Apply(s, step))
  {
    StepKeepsChain(s, step);
    forall i | 0 <= i < |Apply(s, step).pcs| ensures PcOk(Apply(s, step), Apply(s, step).pcs[i]) {
      StepKeepsPcs(s, step, i);
    }
    forall e | 0 <= e < |Apply(s, step).exchanges| ensures ExchangeOk(Apply(s, step), Apply(s, step).exchanges[e]) {
      StepKeepsExchanges(s, step, e);
    }
  }

  lemma {:induction false} RunKeepsInv(s: State, steps: seq<Step>)
    requires Inv(s) && Run(s, steps).Some?
    ensures Inv(Run(s, steps).value) && s.writes <= Run(s, steps).value.writes
    decreases |steps|
  {
    if steps != [] {
      RunKeepsInv(s, steps[..|steps| - 1]);
      StepKeepsInv(Run(s, steps[..|steps| - 1]).value, steps[|steps| - 1]);
      StepKeepsChain(Run(s, steps[..|steps| - 1]).value, steps[|steps| - 1]);
    }
  }

  /** No lost update: over every run of refreshes and code exchanges the writes form one chain. */
  lemma WritesFormOneChain(clock: int, maxRetries: nat, steps: seq<Step>)
    requires Run(Initial(clock, maxRetries), steps).Some?
    ensures Chained(Run(Initial(clock, maxRetries), steps).value)
  {
    RunKeepsInv(Initial(clock, maxRetries), steps);
  }

  /** In a chain every version has one successor: the n-th write is the only one read at version n + 1. */
  lemma {:induction false} VersionHasOneSuccessor(s: State, n: nat, m: nat)
    requires Chained(s) && n < |s.writes| && m < |s.writes|
    ensures s.writes[n].base.version == n + 1 && s.writes[n].result.version == n + 2
    ensures s.writes[n].base.version == s.writes[m].base.version ==> n == m
    ensures n == m + 1 ==> SameTokens(s.writes[n].base, s.writes[m].result)
  {
    VersionIsPosition(s, n);
    VersionIsPosition(s, m);
    assert n == m + 1 ==> Link(s, n) && StoredAt(s, n) == s.writes[m].result;
  }

  lemma {:induction false} VersionIsPosition(s: State, n: nat)
    requires Chained(s) && n < |s.writes|
    ensures s.writes[n].base.version == n + 1 && s.writes[n].result.version == n + 2
    decreases n
  {
    assert Link(s, n);
    if n > 0 { VersionIsPosition(s, n - 1); }
  }

  /**
   * A refresher that loses the race hands out the access token now stored, one
   * that somebody else wrote after the row it had read.
   */
  lemma LoserReturnsStoredToken(s: State, i: nat)
    requires Inv(s) && Enabled(s, ReadBack(i))
    ensures |s.writes| > 0
    ensures Apply(s, ReadBack(i)).pcs[i] == Leaving(Some(s.writes[|s.writes| - 1].tokens.access))
    ensures s.pcs[i].snapshot.version <= s.writes[|s.writes| - 1].base.version
  {
    assert PcOk(s, s.pcs[i]);
    assert |s.writes| > 0 ==> Link(s, |s.writes| - 1);
    VersionIsPosition(s, |s.writes| - 1);
  }
}
