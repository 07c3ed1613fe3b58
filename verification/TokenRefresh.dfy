/**
 * The token-refresh protocol of one connection: the lease lock, the stored row
 * with its compare-and-swap, the rotating authorization server, any number of
 * refreshing sections and any number of authorization-code exchanges
 * (packages/oauth/src/token-manager.ts). Every await is a step boundary.
 */
module TokenRefresh {
  import opened Wrappers
  import Lock = LeaseLock

  type Token = nat
  type GrantId = nat
  type TransactionId = nat

  // ----- the authorization server ----------------------------------------------------

  datatype Grant = Grant(current: Option<Token>, retired: set<Token>, revoked: bool)

  /** `index` maps every refresh token ever issued to its grant. */
  datatype Server = Server(grants: map<GrantId, Grant>, index: map<Token, GrantId>)

  datatype Tokens = Tokens(access: Token, refresh: Option<Token>, expiresAt: Option<int>)

  /** What the server chooses when it answers: fresh values and its policy. */
  datatype Offer = Offer(
    access: Token, freshRefresh: Token, expiresAt: Option<int>, issuesRefresh: bool, rotates: bool)

  datatype Answer = Answer(server: Server, tokens: Option<Tokens>)

  function IssueTokens(server: Server, id: GrantId, offer: Offer): Answer
    requires id in server.grants
  {
    var grant := server.grants[id];
    if !offer.issuesRefresh then
      Answer(server.(grants := server.grants[id := grant.(current := None)]),
             Some(Tokens(offer.access, None, offer.expiresAt)))
    else if grant.current.None? || offer.rotates then
      var retired := grant.retired + if grant.current.Some? then {grant.current.value} else {};
      Answer(Server(server.grants[id := Grant(Some(offer.freshRefresh), retired, grant.revoked)],
                    server.index[offer.freshRefresh := id]),
             Some(Tokens(offer.access, Some(offer.freshRefresh), offer.expiresAt)))
    else
      Answer(server, Some(Tokens(offer.access, None, offer.expiresAt)))
  }

  function ExchangeCode(server: Server, id: GrantId, offer: Offer): Answer {
    IssueTokens(server.(grants := server.grants[id := Grant(None, {}, false)]), id, offer)
  }

  /** A refresh request; a token that is not the current one of its grant revokes the grant. */
  function Refresh(server: Server, presented: Token, offer: Offer): Answer {
    if presented !in server.index || server.index[presented] !in server.grants then Answer(server, None)
    else
      var id := server.index[presented];
      var grant := server.grants[id];
      if grant.revoked then Answer(server, None)
      else if grant.current != Some(presented) then
        Answer(server.(grants := server.grants[id := grant.(revoked := true)]), None)
      else IssueTokens(server, id, offer)
  }

  ghost predicate Current(server: Server, token: Token) {
    && token in server.index
    && server.index[token] in server.grants
    && server.grants[server.index[token]].current == Some(token)
  }

  // ----- the stored row --------------------------------------------------------------

  datatype Status = AuthorizationRequired | Connected | NonRefreshable | Degraded | ReauthRequired | Disabled

  datatype Row = Row(
    version: nat, access: Option<Token>, refresh: Option<Token>, expiresAt: Option<int>, status: Status)

  /** The refresh token persistTokens writes: the one the server sent, or the one that was read. */
  function Kept(snapshot: Row, tokens: Tokens): Option<Token> {
    if tokens.refresh.Some? then tokens.refresh else snapshot.refresh
  }

  function Merge(snapshot: Row, tokens: Tokens): Row {
    var refresh := Kept(snapshot, tokens);
    Row(snapshot.version + 1, Some(tokens.access), refresh, tokens.expiresAt,
        if refresh.Some? then Connected else NonRefreshable)
  }

  /** The connections table of one connection; updateTokens is one conditional statement. */
  class ConnectionTable {
    var row: Row

    constructor ()
      ensures row == InitialRow
    {
      row := InitialRow;
    }

    method UpdateTokens(expectedVersion: nat, access: Token, refresh: Option<Token>, expiresAt: Option<int>, status: Status)
      returns (changed: bool)
      modifies this
      ensures changed == (old(row).version == expectedVersion)
      ensures row == if changed then Row(expectedVersion + 1, Some(access), refresh, expiresAt, status) else old(row)
    {
      changed := false;
      if row.version == expectedVersion {
        row := Row(row.version + 1, Some(access), refresh, expiresAt, status);
        changed := true;
      }
    }

    method PersistTokens(snapshot: Row, tokens: Tokens) returns (stored: bool)
      modifies this
      ensures stored == (old(row).version == snapshot.version)
      ensures row == if stored then Merge(snapshot, tokens) else old(row)
      ensures stored ==>
        && row.version == old(row).version + 1 && row.access == Some(tokens.access) && row.expiresAt == tokens.expiresAt
        && row.refresh == (if tokens.refresh.Some? then tokens.refresh else snapshot.refresh)
        && row.status == if row.refresh.None? then NonRefreshable else Connected
    {
      var refresh := snapshot.refresh;
      if tokens.refresh.Some? {
        refresh := tokens.refresh;
      }
      stored := UpdateTokens(snapshot.version, tokens.access, refresh, tokens.expiresAt,
                             if refresh.Some? then Connected else NonRefreshable);
    }
  }

  const InitialRow := Row(1, None, None, None, AuthorizationRequired)

  predicate Usable(row: Row, headroom: int, now: int) {
    row.access.Some? && (row.expiresAt.Some? ==> row.expiresAt.value - headroom > now)
  }

  predicate Barred(row: Row) {
    row.status.ReauthRequired? || row.status.Disabled?
  }

  // ----- the machine -----------------------------------------------------------------

  /** Where the critical section of one refresher stands. */
  datatype Pc =
    | Queued
    | Entered
    | Refreshing(snapshot: Row, attempt: nat)
    | Answered(snapshot: Row, attempt: nat, tokens: Tokens)  // the server answered, nothing stored yet
    | Outrun(snapshot: Row, attempt: nat, tokens: Tokens)    // the compare-and-swap failed
    | Leaving(result: Option<Token>)

  datatype Exchange =
    | HasRead(transaction: TransactionId, snapshot: Row)
    | HasConsumed(snapshot: Row)
    | Granted(snapshot: Row, tokens: Tokens)
    | Closed(stored: bool)

  /** One successful token write: what was read, what the server sent, what was stored. */
  datatype Write = Write(base: Row, tokens: Tokens, result: Row)

  datatype State = State(
    lock: Lock.State, pcs: seq<Pc>, row: Row, server: Server,
    exchanges: seq<Exchange>, consumed: set<TransactionId>, maxRetries: nat, writes: seq<Write>)

  datatype Step =
    | LockStep(step: Lock.Step)
    | Reread(section: nat, headroom: int)             // the row is read again under the lock
    | GiveUp(section: nat)                            // breaker open, or a refusal that rotated nothing
    | ServerAnswers(section: nat, offer: Offer)
    | ServerUnavailable(section: nat)                 // a transient failure that rotated nothing
    | Persist(section: nat)
    | ReadBack(section: nat)
    | StoreFails(section: nat)                        // a database error inside the retry loop
    | ReadForExchange(transaction: TransactionId)
    | Consume(exchange: nat)
    | CodeAccepted(exchange: nat, id: GrantId, offer: Offer)
    | CodeRefused(exchange: nat)
    | StoreExchange(exchange: nat)
    | SetStatus(status: Status)                       // connections.update without token fields

  const REFRESH_KEY := "oauth-refresh"

  function Initial(clock: int, maxRetries: nat): State {
    State(Lock.Initial(clock), [], InitialRow, Server(map[], map[]), [], {}, maxRetries, [])
  }

  predicate LockStepAllowed(s: State, step: Lock.Step) {
    && Lock.Enabled(s.lock, step)
    && (step.Begin? ==> step.key == REFRESH_KEY)
    && (step.WorkDone? ==> step.section < |s.pcs| && s.pcs[step.section].Leaving?)
  }

  predicate Enabled(s: State, step: Step) {
    && |s.pcs| == |s.lock.sections|
    && match step
       case LockStep(l) => LockStepAllowed(s, l)
       case Reread(i, _) => i < |s.pcs| && s.pcs[i].Entered?
       case GiveUp(i) => i < |s.pcs| && s.pcs[i].Refreshing?
       case ServerAnswers(i, offer) =>
         i < |s.pcs| && s.pcs[i].Refreshing? && offer.freshRefresh !in s.server.index
       case ServerUnavailable(i) => i < |s.pcs| && s.pcs[i].Refreshing?
       case Persist(i) => i < |s.pcs| && s.pcs[i].Answered?
       case ReadBack(i) => i < |s.pcs| && s.pcs[i].Outrun?
       case StoreFails(i) => i < |s.pcs| && (s.pcs[i].Answered? || s.pcs[i].Outrun?)
       case ReadForExchange(_) => true
       case Consume(e) => e < |s.exchanges| && s.exchanges[e].HasRead?
       case CodeAccepted(e, id, offer) =>
         e < |s.exchanges| && s.exchanges[e].HasConsumed? && id !in s.server.grants && offer.freshRefresh !in s.server.index
       case CodeRefused(e) => e < |s.exchanges| && s.exchanges[e].HasConsumed?
       case StoreExchange(e) => e < |s.exchanges| && s.exchanges[e].Granted?
       case SetStatus(_) => true
  }

  function At(s: State, i: nat, pc: Pc): State
    requires i < |s.pcs|
  {
    s.(pcs := s.pcs[i := pc])
  }

  /** persistTokens: stores only if the version is still the one that was read. */
  function Store(s: State, snapshot: Row, tokens: Tokens): State {
    if s.row.version == snapshot.version
    then s.(row := Merge(snapshot, tokens), writes := s.writes + [Write(snapshot, tokens, Merge(snapshot, tokens))])
    else s
  }

  /** The catch block for a transient failure: try again with the same token, or degrade and give up. */
  function Retry(s: State, i: nat, snapshot: Row, attempt: nat): State
    requires i < |s.pcs|
  {
    if attempt < s.maxRetries then At(s, i, Refreshing(snapshot, attempt + 1))
    else At(s, i, Leaving(None)).(row := s.row.(status := if snapshot.status.Connected? then Degraded else snapshot.status))
  }

  function PcsAfter(s: State, step: Lock.Step): seq<Pc>
    requires |s.pcs| == |s.lock.sections| && LockStepAllowed(s, step)
  {
    match step
    case Begin(_, _) => s.pcs + [Queued]
    case RowAnswer(i, _) =>
      if Lock.Apply(s.lock, step).sections[i].phase.Running? then s.pcs[i := Entered] else s.pcs
    case _ => s.pcs
  }

  function Apply(s: State, step: Step): State
    requires Enabled(s, step)
  {
    match step
    case LockStep(l) => s.(lock := Lock.Apply(s.lock, l), pcs := PcsAfter(s, l))
    case Reread(i, headroom) =>
      if Barred(s.row) then At(s, i, Leaving(None))
      else if Usable(s.row, headroom, s.lock.clock) then At(s, i, Leaving(s.row.access))
      else if s.row.refresh.None? then At(s, i, Leaving(None))
      else At(s, i, Refreshing(s.row, 0))
    case GiveUp(i) => At(s, i, Leaving(None))
    case ServerAnswers(i, offer) =>
      var pc := s.pcs[i];
      var answer := if pc.snapshot.refresh.Some? then Refresh(s.server, pc.snapshot.refresh.value, offer)
                    else Answer(s.server, None);
      if answer.tokens.Some? then
        At(s, i, Answered(pc.snapshot, pc.attempt, answer.tokens.value)).(server := answer.server)
      else
        At(s, i, Leaving(None)).(server := answer.server, row := s.row.(status := ReauthRequired))
    case ServerUnavailable(i) => Retry(s, i, s.pcs[i].snapshot, s.pcs[i].attempt)
    case Persist(i) =>
      var pc := s.pcs[i];
      At(Store(s, pc.snapshot, pc.tokens), i,
         if s.row.version == pc.snapshot.version then Leaving(Some(pc.tokens.access))
         else Outrun(pc.snapshot, pc.attempt, pc.tokens))
    case ReadBack(i) => At(s, i, Leaving(s.row.access))
    case StoreFails(i) => Retry(s, i, s.pcs[i].snapshot, s.pcs[i].attempt)
    case ReadForExchange(transaction) => s.(exchanges := s.exchanges + [HasRead(transaction, s.row)])
    case Consume(e) =>
      var x := s.exchanges[e];
      if x.transaction in s.consumed then s.(exchanges := s.exchanges[e := Closed(false)])
      else s.(exchanges := s.exchanges[e := HasConsumed(x.snapshot)], consumed := s.consumed + {x.transaction})
    case CodeAccepted(e, id, offer) =>
      var answer := ExchangeCode(s.server, id, offer);
      s.(server := answer.server, exchanges := s.exchanges[e := Granted(s.exchanges[e].snapshot, answer.tokens.value)])
    case CodeRefused(e) => s.(exchanges := s.exchanges[e := Closed(false)])
    case StoreExchange(e) =>
      var x := s.exchanges[e];
      Store(s, x.snapshot, x.tokens).(exchanges := s.exchanges[e := Closed(s.row.version == x.snapshot.version)])
    case SetStatus(status) => s.(row := s.row.(status := status))
  }

  /** The state a list of steps leads to; None when one of them is not enabled. */
  ghost function Run(s: State, steps: seq<Step>): Option<State> {
    if steps == [] then Some(s) else
    match Run(s, steps[..|steps| - 1])
    case None => None
    case Some(t) => if Enabled(t, steps[|steps| - 1]) then Some(Apply(t, steps[|steps| - 1])) else None
  }
}
