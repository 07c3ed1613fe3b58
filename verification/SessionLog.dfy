/**
 * The replay log of a downstream session (packages/mcp-server/src/session.ts) on
 * values: what sending a message and attaching a stream do to it, and what holds
 * over every run. `S` stands for the streams.
 */
module SessionLog {
  import opened Wrappers

  const HISTORY_LIMIT := 256

  datatype Entry = Entry(id: nat, message: string, delivered: bool)

  datatype Delivery<S> = Delivery(stream: S, id: nat, message: string)

  /**
   * `history` and `nextEventId` are the session's fields. `sent` lists every message
   * ever recorded and `deliveries` every write to a stream, in order.
   */
  datatype Log<S> = Log(history: seq<Entry>, nextEventId: nat, sent: seq<string>, deliveries: seq<Delivery<S>>)

  datatype Op<S> =
    | Send(message: string, target: Option<S>)                      // deliver, with the stream it picked
    | Attach(stream: S, isOpen: bool, lastEventId: Option<int>)

  function Start<S>(): Log<S> {
    Log([], 1, [], [])
  }

  // ----- the two operations ----------------------------------------------------------

  /** The oldest entry makes room once the limit is passed. */
  function Trimmed(history: seq<Entry>): seq<Entry> {
    if |history| > HISTORY_LIMIT then history[1..] else history
  }

  function AfterSend<S>(log: Log<S>, message: string, target: Option<S>): Log<S> {
    var entry := Entry(log.nextEventId, message, target.Some?);
    Log(Trimmed(log.history + [entry]), log.nextEventId + 1, log.sent + [message],
        log.deliveries + if target.Some? then [Delivery(target.value, entry.id, message)] else [])
  }

  /** Whether attaching with this `Last-Event-ID` replays an entry. */
  predicate Wanted(entry: Entry, lastEventId: Option<int>) {
    if lastEventId.None? then !entry.delivered else entry.id > lastEventId.value
  }

  function Replay(history: seq<Entry>, lastEventId: Option<int>): (r: seq<Entry>) {
    if history == [] then []
    else (if Wanted(history[0], lastEventId) then [history[0]] else []) + Replay(history[1..], lastEventId)
  }

  function Marked(history: seq<Entry>, lastEventId: Option<int>): (r: seq<Entry>)
    ensures |r| == |history|
    ensures forall n :: 0 <= n < |r| ==>
      r[n] == if Wanted(history[n], lastEventId) then history[n].(delivered := true) else history[n]
  {
    seq(|history|, n requires 0 <= n < |history| =>
      if Wanted(history[n], lastEventId) then history[n].(delivered := true) else history[n])
  }

  function Written<S>(stream: S, replay: seq<Entry>): (r: seq<Delivery<S>>)
    ensures |r| == |replay|
    ensures forall n :: 0 <= n < |r| ==> r[n] == Delivery(stream, replay[n].id, replay[n].message)
  {
    seq(|replay|, n requires 0 <= n < |replay| => Delivery(stream, replay[n].id, replay[n].message))
  }

  /** A closed stream swallows the replay, but its entries count as delivered all the same. */
  function AfterAttach<S>(log: Log<S>, stream: S, isOpen: bool, lastEventId: Option<int>): Log<S> {
    log.(history := Marked(log.history, lastEventId),
         deliveries := log.deliveries + if isOpen then Written(stream, Replay(log.history, lastEventId)) else [])
  }

  function Apply<S>(log: Log<S>, op: Op<S>): Log<S> {
    match op
    case Send(message, target) => AfterSend(log, message, target)
    case Attach(stream, isOpen, lastEventId) => AfterAttach(log, stream, isOpen, lastEventId)
  }

  function Run<S>(ops: seq<Op<S>>): Log<S> {
    if ops == [] then Start() else Apply(Run(ops[..|ops| - 1]), ops[|ops| - 1])
  }

  // ----- the window ------------------------------------------------------------------

  function Min(a: int, b: int): int {
    if a < b then a else b
  }

  /** The history is the last min(256, sent) messages under consecutive ids. */
  ghost predicate Window<S>(log: Log<S>) {
    && log.nextEventId == |log.sent| + 1
    && |log.history| == Min(HISTORY_LIMIT, |log.sent|)
    && forall n :: 0 <= n < |log.history| ==>
         && log.history[n].id == |log.sent| - |log.history| + n + 1
         && log.history[n].message == log.sent[log.history[n].id - 1]
  }

  lemma StepKeepsWindow<S>(log: Log<S>, op: Op<S>)
    requires Window(log)
    ensures Window(Apply(log, op))
  {
  }

  lemma {:induction false} HistoryIsTheNewestWindow<S>(ops: seq<Op<S>>)
    ensures Window(Run(ops))
    ensures |Run(ops).history| == if |Run(ops).sent| < 256 then |Run(ops).sent| else 256
    decreases |ops|
  {
    if ops != [] {
      HistoryIsTheNewestWindow(ops[..|ops| - 1]);
      StepKeepsWindow(Run(ops[..|ops| - 1]), ops[|ops| - 1]);
    }
  }

  /** The replayed entries of a window are a suffix when the client names an id. */
  lemma {:induction false} ReplayIsSuffix(history: seq<Entry>, first: nat, k: int)
    requires forall n :: 0 <= n < |history| ==> history[n].id == first + n
    ensures var skip := if k < first then 0 else Min(k - first + 1, |history|);
            Replay(history, Some(k)) == history[skip..]
    decreases |history|
  {
    if history != [] {
      ReplayIsSuffix(history[1..], first + 1, k);
      if k < first { assert history == [history[0]] + history[1..]; }
    }
  }

  /** Messages k + 1 up to the newest, under their ids. */
  function After<S>(log: Log<S>, stream: S, k: nat): (r: seq<Delivery<S>>)
    requires k <= |log.sent|
    ensures |r| == |log.sent| - k
  {
    seq(|log.sent| - k, n requires 0 <= n < |log.sent| - k => Delivery(stream, k + n + 1, log.sent[k + n]))
  }

  lemma SuffixWritten<S>(log: Log<S>, stream: S, replay: seq<Entry>, k: nat)
    requires Window(log) && |log.sent| - |log.history| <= k <= |log.sent|
    requires replay == log.history[k - (|log.sent| - |log.history|)..]
    ensures Written(stream, replay) == After(log, stream, k)
  {
    forall n | 0 <= n < |replay| ensures Written(stream, replay)[n] == After(log, stream, k)[n] {
      assert replay[n] == log.history[k - (|log.sent| - |log.history|) + n];
    }
  }

  lemma WindowReplay<S>(log: Log<S>, stream: S, k: nat)
    requires Window(log) && |log.sent| - |log.history| <= k <= |log.sent|
    ensures Written(stream, Replay(log.history, Some(k))) == After(log, stream, k)
  {
    var first := |log.sent| - |log.history|;
    var replay := Replay(log.history, Some(k));
    assert replay == log.history[k - first..] by { ReplayIsSuffix(log.history, first + 1, k); }
    SuffixWritten(log, stream, replay, k);
  }

  /**
   * Resuming inside the window writes exactly the messages k + 1 up to the newest,
   * in order, under their ids.
   */
  lemma ResumeReplaysTheRest<S>(ops: seq<Op<S>>, stream: S, k: nat)
    requires |Run(ops).sent| - |Run(ops).history| <= k <= |Run(ops).sent|
    ensures AfterAttach(Run(ops), stream, true, Some(k)).deliveries == Run(ops).deliveries + After(Run(ops), stream, k)
  {
    HistoryIsTheNewestWindow(ops);
    WindowReplay(Run(ops), stream, k);
  }

  // ----- order on one stream ---------------------------------------------------------

  /** Streams are attached when they are new: nothing has been written to them yet. */
  ghost predicate FreshAttach<S>(log: Log<S>, op: Op<S>) {
    op.Attach? ==> forall n :: 0 <= n < |log.deliveries| ==> log.deliveries[n].stream != op.stream
  }

  ghost predicate AttachesAreFresh<S>(ops: seq<Op<S>>) {
    ops == [] || (AttachesAreFresh(ops[..|ops| - 1]) && FreshAttach(Run(ops[..|ops| - 1]), ops[|ops| - 1]))
  }

  /** On any one stream ids strictly increase, and every write carries the message its id stands for. */
  ghost predicate InOrder<S>(log: Log<S>) {
    && (forall n :: 0 <= n < |log.deliveries| ==>
          && 1 <= log.deliveries[n].id <= |log.sent|
          && log.deliveries[n].message == log.sent[log.deliveries[n].id - 1])
    && (forall m, n :: 0 <= m < n < |log.deliveries| && log.deliveries[m].stream == log.deliveries[n].stream ==>
          log.deliveries[m].id < log.deliveries[n].id)
  }

  lemma {:induction false} ReplayOrder(history: seq<Entry>, lastEventId: Option<int>)
    requires forall m, n :: 0 <= m < n < |history| ==> history[m].id < history[n].id
    ensures forall e :: e in Replay(history, lastEventId) <==> e in history && Wanted(e, lastEventId)
    ensures forall m, n :: 0 <= m < n < |Replay(history, lastEventId)| ==>
      Replay(history, lastEventId)[m].id < Replay(history, lastEventId)[n].id
    decreases |history|
  {
    if history != [] {
      ReplayOrder(history[1..], lastEventId);
      var r := Replay(history[1..], lastEventId);
      forall e | e in r ensures e.id > history[0].id {
        var n :| 0 <= n < |history[1..]| && history[1..][n] == e;
        assert history[n + 1] == e;
      }
      assert history == [history[0]] + history[1..];
    }
  }

  lemma StepKeepsOrder<S>(log: Log<S>, op: Op<S>)
    requires Window(log) && InOrder(log) && FreshAttach(log, op)
    ensures InOrder(Apply(log, op))
  {
    if op.Attach? && op.isOpen {
      ReplayOrder(log.history, op.lastEventId);
      var replay := Replay(log.history, op.lastEventId);
      forall n | 0 <= n < |replay|
        ensures 1 <= replay[n].id <= |log.sent| && replay[n].message == log.sent[replay[n].id - 1]
      {
        assert replay[n] in log.history;
      }
    }
  }

  lemma {:induction false} StreamsReadInOrder<S>(ops: seq<Op<S>>)
    requires AttachesAreFresh(ops)
    ensures InOrder(Run(ops))
    decreases |ops|
  {
    if ops != [] {
      StreamsReadInOrder(ops[..|ops| - 1]);
      HistoryIsTheNewestWindow(ops[..|ops| - 1]);
      StepKeepsOrder(Run(ops[..|ops| - 1]), ops[|ops| - 1]);
    }
  }

  // ----- at most one stream, and nothing lost ----------------------------------------

  ghost predicate WasWritten<S>(log: Log<S>, id: nat) {
    exists n :: 0 <= n < |log.deliveries| && log.deliveries[n].id == id
  }

  /** What is written has been sent, and what counts as undelivered has not been written. */
  ghost predicate MarksAreTrue<S>(log: Log<S>) {
    && (forall n :: 0 <= n < |log.deliveries| ==> log.deliveries[n].id < log.nextEventId)
    && (forall e :: e in log.history && !e.delivered ==> !WasWritten(log, e.id))
  }

  lemma SendKeepsMarks<S>(log: Log<S>, message: string, target: Option<S>)
    requires Window(log) && MarksAreTrue(log)
    ensures MarksAreTrue(AfterSend(log, message, target))
  {
    var after := AfterSend(log, message, target);
    forall e | e in after.history && !e.delivered ensures !WasWritten(after, e.id) {
      assert e in log.history || e == Entry(log.nextEventId, message, target.Some?);
    }
  }

  /** What a replay writes is in the history, and not an entry it leaves out. */
  lemma ReplayIsWanted<S>(log: Log<S>, lastEventId: Option<int>, m: nat)
    requires Window(log) && m < |Replay(log.history, lastEventId)|
    ensures var id := Replay(log.history, lastEventId)[m].id;
      && id < log.nextEventId
      && forall n :: 0 <= n < |log.history| && !Wanted(log.history[n], lastEventId) ==> log.history[n].id != id
  {
    ReplayOrder(log.history, lastEventId);
    var e := Replay(log.history, lastEventId)[m];
    hide Wanted, Replay;
    assert e in log.history && Wanted(e, lastEventId);
  }

  lemma AttachKeepsMarks<S>(log: Log<S>, stream: S, isOpen: bool, lastEventId: Option<int>)
    requires Window(log) && MarksAreTrue(log)
    ensures MarksAreTrue(AfterAttach(log, stream, isOpen, lastEventId))
  {
    var after, known := AfterAttach(log, stream, isOpen, lastEventId), |log.deliveries|;
    forall m | known <= m < |after.deliveries|
      ensures after.deliveries[m].id < after.nextEventId
      ensures forall n :: 0 <= n < |log.history| && !Wanted(log.history[n], lastEventId) ==> log.history[n].id != after.deliveries[m].id
    {
      ReplayIsWanted(log, lastEventId, m - known);
    }
    hide Window, Wanted, Replay;
    forall n | 0 <= n < |after.history| && !after.history[n].delivered ensures !WasWritten(after, after.history[n].id) {
      assert after.history[n] == log.history[n] && log.history[n] in log.history;
    }
  }

  lemma {:induction false} MarksStayTrue<S>(ops: seq<Op<S>>)
    ensures MarksAreTrue(Run(ops))
    decreases |ops|
  {
    if ops != [] {
      MarksStayTrue(ops[..|ops| - 1]);
      HistoryIsTheNewestWindow(ops[..|ops| - 1]);
      match ops[|ops| - 1]
      case Send(message, target) => SendKeepsMarks(Run(ops[..|ops| - 1]), message, target);
      case Attach(stream, isOpen, lastEventId) => AttachKeepsMarks(Run(ops[..|ops| - 1]), stream, isOpen, lastEventId);
    }
  }

  /** No message has been written twice, to one stream or to two. */
  ghost predicate WrittenOnce<S>(log: Log<S>) {
    forall m, n :: 0 <= m < n < |log.deliveries| ==> log.deliveries[m].id != log.deliveries[n].id
  }

  lemma AttachWritesOnce<S>(log: Log<S>, stream: S, isOpen: bool)
    requires Window(log) && MarksAreTrue(log) && WrittenOnce(log)
    ensures WrittenOnce(AfterAttach(log, stream, isOpen, None))
  {
    var after := AfterAttach(log, stream, isOpen, None);
    ReplayOrder(log.history, None);
    var replay, known := Replay(log.history, None), |log.deliveries|;
    forall m, n | 0 <= m < n < |after.deliveries| ensures after.deliveries[m].id != after.deliveries[n].id {
      if m < known <= n {
        assert replay[n - known] in log.history && after.deliveries[n].id == replay[n - known].id;
        assert WasWritten(log, log.deliveries[m].id);
      } else if known <= m {
        assert after.deliveries[m].id == replay[m - known].id && after.deliveries[n].id == replay[n - known].id;
      }
    }
  }

  lemma StepWritesOnce<S>(log: Log<S>, op: Op<S>)
    requires Window(log) && MarksAreTrue(log) && WrittenOnce(log)
    requires op.Attach? ==> op.lastEventId.None?
    ensures WrittenOnce(Apply(log, op))
  {
    if op.Attach? { AttachWritesOnce(log, op.stream, op.isOpen); }
  }

  /** In runs where no client resumes by id, a message reaches at most one stream, and that once. */
  lemma {:induction false} NoMessageTwice<S>(ops: seq<Op<S>>)
    requires forall n :: 0 <= n < |ops| && ops[n].Attach? ==> ops[n].lastEventId.None?
    ensures WrittenOnce(Run(ops))
    decreases |ops|
  {
    if ops != [] {
      NoMessageTwice(ops[..|ops| - 1]);
      MarksStayTrue(ops[..|ops| - 1]);
      HistoryIsTheNewestWindow(ops[..|ops| - 1]);
      StepWritesOnce(Run(ops[..|ops| - 1]), ops[|ops| - 1]);
    }
  }

  ghost predicate RetainedUndelivered<S>(log: Log<S>, id: nat) {
    exists e :: e in log.history && e.id == id && !e.delivered
  }

  ghost predicate PushedOut<S>(log: Log<S>, id: nat) {
    id + HISTORY_LIMIT < log.nextEventId
  }

  /** Every message sent was written, or waits in the history, or made room for 256 newer ones. */
  ghost predicate NothingLost<S>(log: Log<S>) {
    forall id: nat :: 1 <= id < log.nextEventId ==>
      WasWritten(log, id) || RetainedUndelivered(log, id) || PushedOut(log, id)
  }

  /** Attaching a stream that is already closed while messages wait for one. */
  predicate Swallows<S>(log: Log<S>, op: Op<S>) {
    op.Attach? && !op.isOpen && exists e :: e in log.history && !e.delivered && Wanted(e, op.lastEventId)
  }

  lemma WritesStay<S>(log: Log<S>, op: Op<S>, id: nat)
    requires WasWritten(log, id)
    ensures WasWritten(Apply(log, op), id)
  {
    var n :| 0 <= n < |log.deliveries| && log.deliveries[n].id == id;
    assert Apply(log, op).deliveries[n] == log.deliveries[n];
  }

  lemma SendLosesNothing<S>(log: Log<S>, message: string, target: Option<S>, id: nat)
    requires Window(log) && NothingLost(log) && 1 <= id <= log.nextEventId
    ensures var after := AfterSend(log, message, target);
            WasWritten(after, id) || RetainedUndelivered(after, id) || PushedOut(after, id)
  {
    var after := AfterSend(log, message, target);
    if id == log.nextEventId {
      if target.Some? {
        assert after.deliveries[|log.deliveries|].id == id;
      } else {
        assert after.history[|after.history| - 1] in after.history;
      }
    } else if WasWritten(log, id) {
      WritesStay(log, Send(message, target), id);
    } else if RetainedUndelivered(log, id) {
      var n :| 0 <= n < |log.history| && log.history[n].id == id && !log.history[n].delivered;
      if |log.history| < HISTORY_LIMIT {
        assert after.history[n] == log.history[n];
      } else if n > 0 {
        assert after.history[n - 1] == log.history[n];
      }
    }
  }

  lemma AttachLosesNothing<S>(log: Log<S>, op: Op<S>, id: nat)
    requires Window(log) && op.Attach? && !Swallows(log, op)
    requires WasWritten(log, id) || RetainedUndelivered(log, id)
    ensures WasWritten(Apply(log, op), id) || RetainedUndelivered(Apply(log, op), id)
  {
    var after := Apply(log, op);
    if WasWritten(log, id) {
      WritesStay(log, op, id);
    } else {
      var n :| 0 <= n < |log.history| && log.history[n].id == id && !log.history[n].delivered;
      if Wanted(log.history[n], op.lastEventId) {
        ReplayOrder(log.history, op.lastEventId);
        var m :| 0 <= m < |Replay(log.history, op.lastEventId)| && Replay(log.history, op.lastEventId)[m] == log.history[n];
        assert after.deliveries[|log.deliveries| + m].id == id;
      } else {
        assert after.history[n] == log.history[n];
      }
    }
  }

  lemma StepLosesNothing<S>(log: Log<S>, op: Op<S>)
    requires Window(log) && NothingLost(log) && !Swallows(log, op)
    ensures NothingLost(Apply(log, op))
  {
    var after := Apply(log, op);
    forall id: nat | 1 <= id < after.nextEventId
      ensures WasWritten(after, id) || RetainedUndelivered(after, id) || PushedOut(after, id)
    {
      if op.Send? {
        SendLosesNothing(log, op.message, op.target, id);
      } else if !PushedOut(log, id) {
        AttachLosesNothing(log, op, id);
      }
    }
  }

  ghost predicate NeverSwallows<S>(ops: seq<Op<S>>) {
    ops == [] || (NeverSwallows(ops[..|ops| - 1]) && !Swallows(Run(ops[..|ops| - 1]), ops[|ops| - 1]))
  }

  lemma {:induction false} NoMessageLost<S>(ops: seq<Op<S>>)
    requires NeverSwallows(ops)
    ensures NothingLost(Run(ops))
    decreases |ops|
  {
    if ops != [] {
      NoMessageLost(ops[..|ops| - 1]);
      HistoryIsTheNewestWindow(ops[..|ops| - 1]);
      StepLosesNothing(Run(ops[..|ops| - 1]), ops[|ops| - 1]);
    }
  }

  lemma SwallowingLoses<S>(log: Log<S>, op: Op<S>)
    requires Window(log) && MarksAreTrue(log) && Swallows(log, op)
    ensures !NothingLost(Apply(log, op))
  {
    var n :| 0 <= n < |log.history| && !log.history[n].delivered && Wanted(log.history[n], op.lastEventId);
    var id := log.history[n].id;
    var after := Apply(log, op);
    assert log.history[n] in log.history && !WasWritten(log, id);
    assert !WasWritten(after, id) by {
      assert after.deliveries == log.deliveries;
    }
    forall e | e in after.history && e.id == id ensures e.delivered {
      var m :| 0 <= m < |after.history| && after.history[m] == e;
      assert after.history[m].id == log.history[m].id && m == n;
    }
    assert !RetainedUndelivered(after, id) && !PushedOut(after, id);
  }

  /** The condition is exact: after any run, a closed stream that swallows the replay loses a message. */
  lemma SwallowedMessageIsLost<S>(ops: seq<Op<S>>, op: Op<S>)
    requires Swallows(Run(ops), op)
    ensures !NothingLost(Run(ops + [op]))
  {
    assert (ops + [op])[..|ops|] == ops;
    HistoryIsTheNewestWindow(ops);
    MarksStayTrue(ops);
    SwallowingLoses(Run(ops), op);
  }
}
