/**
 * The downstream session object (packages/mcp-server/src/session.ts): streams,
 * replay log and the requests the gateway is waiting on. Its log behaves as
 * SessionLog says, which is where the properties over whole runs are proved.
 */
module DownstreamSession {
  import opened Wrappers
  import opened EventStream
  import Log = SessionLog

  datatype Outcome = Resolved(result: string) | Refused(error: string) | TimedOut | SessionClosed

  /** The newest stream of a list that is still open. */
  ghost function NewestOpen(streams: seq<EventStreamWriter>): Option<EventStreamWriter>
    reads streams
  {
    if streams == [] then None
    else if !streams[|streams| - 1].closed then Some(streams[|streams| - 1])
    else NewestOpen(streams[..|streams| - 1])
  }

  lemma {:induction false} NewestOpenIsLastOpen(streams: seq<EventStreamWriter>)
    ensures var newest := NewestOpen(streams);
      && (newest.None? <==> forall n :: 0 <= n < |streams| ==> streams[n].closed)
      && (newest.Some? ==> !newest.value.closed && exists n ::
            0 <= n < |streams| && streams[n] == newest.value && forall m :: n < m < |streams| ==> streams[m].closed)
  {
    if streams != [] {
      var n := |streams| - 1;
      if streams[n].closed {
        assert NewestOpen(streams) == NewestOpen(streams[..n]);
        NewestOpenIsLastOpen(streams[..n]);
        hide NewestOpen;
        assert forall m :: 0 <= m < n ==> streams[..n][m] == streams[m];
      } else {
        assert streams[n] == NewestOpen(streams).value;
      }
    }
  }

  function FramesOf(replay: seq<Log.Entry>): (r: seq<Frame>) {
    if replay == [] then [] else FramesOf(replay[..|replay| - 1]) + [FrameOf(replay[|replay| - 1])]
  }

  function FrameOf(entry: Log.Entry): Frame {
    Message(Some(entry.id), entry.message)
  }

  lemma {:induction false} ReplayOneMore(history: seq<Log.Entry>, n: nat, lastEventId: Option<int>)
    requires n < |history|
    ensures Log.Replay(history[..n + 1], lastEventId)
         == Log.Replay(history[..n], lastEventId) + if Log.Wanted(history[n], lastEventId) then [history[n]] else []
    decreases n
  {
    if n > 0 {
      ReplayOneMore(history[1..], n - 1, lastEventId);
      assert history[..n + 1][1..] == history[1..][..n] && history[..n][1..] == history[1..][..n - 1];
      assert history[1..][n - 1] == history[n];
    } else {
      assert history[..1] == [history[0]] && history[..0] == [];
      assert history[..1][1..] == [];
    }
  }

  /** `at` lists, in order, those of the first `n` entries that a client attaching with this id is to get. */
  ghost predicate Selects(history: seq<Log.Entry>, n: nat, lastEventId: Option<int>, at: seq<nat>)
    requires n <= |history|
  {
    && (forall l, m :: 0 <= l < m < |at| ==> at[l] < at[m])
    && (forall m :: 0 <= m < |at| ==> (at[m] < n && Log.Wanted(history[at[m]], lastEventId)))
    && (forall k: nat :: k < n && Log.Wanted(history[k], lastEventId) ==> k in at)
  }

  lemma {:induction false} ReplayAt(history: seq<Log.Entry>, n: nat, lastEventId: Option<int>) returns (at: seq<nat>)
    requires n <= |history|
    ensures Selects(history, n, lastEventId, at) && |Log.Replay(history[..n], lastEventId)| == |at|
    ensures forall m :: 0 <= m < |at| ==> Log.Replay(history[..n], lastEventId)[m] == history[at[m]]
  {
    if n == 0 {
      at := [];
    } else {
      var earlier := ReplayAt(history, n - 1, lastEventId);
      ReplayOneMore(history, n - 1, lastEventId);
      hide Log.Wanted, Log.Replay;
      at := earlier + if Log.Wanted(history[n - 1], lastEventId) then [n - 1] else [];
      forall k: nat | k < n && Log.Wanted(history[k], lastEventId) ensures k in at {
        if k == n - 1 { assert at[|earlier|] == k; } else { assert k in earlier; }
      }
    }
  }

  lemma {:induction false} FramesAt(replay: seq<Log.Entry>)
    ensures |FramesOf(replay)| == |replay|
    ensures forall m :: 0 <= m < |replay| ==> FramesOf(replay)[m] == Message(Some(replay[m].id), replay[m].message)
  {
    if replay != [] { FramesAt(replay[..|replay| - 1]); }
  }

  /** Exactly the entries behind the given id, or without one those not delivered yet, are now delivered. */
  ghost predicate Marks(before: seq<Log.Entry>, lastEventId: Option<int>, after: seq<Log.Entry>) {
    && |after| == |before|
    && forall k :: 0 <= k < |before| ==>
         if (if lastEventId.None? then !before[k].delivered else before[k].id > lastEventId.value)
         then after[k] == before[k].(delivered := true)
         else after[k] == before[k]
  }

  lemma MarkedMeans(history: seq<Log.Entry>, lastEventId: Option<int>)
    ensures Marks(history, lastEventId, Log.Marked(history, lastEventId))
  {
  }

  lemma NothingReplayed(stream: EventStreamWriter, history: seq<Log.Entry>, lastEventId: Option<int>)
    ensures Log.Replay(history[..0], lastEventId) == [] && FramesOf([]) == [] && Log.Written(stream, []) == []
  {
  }

  /** What a replay writes behind `before`, entry by entry. */
  ghost predicate Replays(history: seq<Log.Entry>, lastEventId: Option<int>, before: seq<Frame>, after: seq<Frame>, at: seq<nat>) {
    && Selects(history, |history|, lastEventId, at) && |after| == |before| + |at| && before <= after
    && forall n :: 0 <= n < |at| ==> after[|before| + n] == Message(Some(history[at[n]].id), history[at[n]].message)
  }

  lemma ReplayedFrames(history: seq<Log.Entry>, lastEventId: Option<int>, before: seq<Frame>) returns (at: seq<nat>)
    ensures Replays(history, lastEventId, before, before + FramesOf(Log.Replay(history, lastEventId)), at)
  {
    at := ReplayAt(history, |history|, lastEventId);
    assert history[..|history|] == history;
    FramesAt(Log.Replay(history, lastEventId));
    hide Log.Wanted, Log.Replay, FramesOf;
  }

  lemma WriteOneMore(stream: EventStreamWriter, replay: seq<Log.Entry>, entry: Log.Entry)
    ensures FramesOf(replay + [entry]) == FramesOf(replay) + [FrameOf(entry)]
    ensures Log.Written(stream, replay + [entry])
         == Log.Written(stream, replay) + [Log.Delivery(stream, entry.id, entry.message)]
  {
    assert (replay + [entry])[..|replay|] == replay;
  }

  class Session {
    var streams: seq<EventStreamWriter>         // a set in insertion order
    var requestStreams: seq<EventStreamWriter>  // newest last
    var history: seq<Log.Entry>
    var nextEventId: nat
    var pending: set<nat>
    var nextRequestId: nat
    var closedFlag: bool
    var outcomes: map<nat, Outcome>             // how the promises handed out were settled
    ghost var sent: seq<string>
    ghost var deliveries: seq<Log.Delivery<EventStreamWriter>>

    ghost function Model(): Log.Log<EventStreamWriter>
      reads this
    {
      Log.Log(history, nextEventId, sent, deliveries)
    }

    /** Every request issued is either pending or settled, never both. */
    ghost predicate RequestsOk()
      reads this
    {
      && (forall id :: id in pending <==> 1 <= id < nextRequestId && id !in outcomes)
      && (forall id :: id in outcomes ==> 1 <= id < nextRequestId)
    }

    ghost predicate Valid()
      reads this
    {
      && RequestsOk()
      && 1 <= nextRequestId
      && (forall m, n :: 0 <= m < n < |streams| ==> streams[m] != streams[n])
    }

    constructor ()
      ensures Valid() && Model() == Log.Start() && streams == requestStreams == []
      ensures pending == {} && outcomes == map[] && !closedFlag
    {
      streams, requestStreams := [], [];
      history, nextEventId, sent, deliveries := [], 1, [], [];
      pending, nextRequestId, closedFlag, outcomes := {}, 1, false, map[];
    }

    method ReplayEntry(stream: EventStreamWriter, n: nat)
      requires n < |history|
      modifies this`history, this`deliveries, stream`frames
      ensures stream.closed == old(stream.closed)
      ensures history == old(history)[n := old(history)[n].(delivered := true)]
      ensures stream.frames == old(stream.frames) + if old(stream.closed) then [] else [FrameOf(old(history)[n])]
      ensures deliveries == old(deliveries)
        + if old(stream.closed) then [] else [Log.Delivery(stream, old(history)[n].id, old(history)[n].message)]
    {
      var entry := history[n];
      stream.Write(entry.message, Some(entry.id));
      history := history[n := entry.(delivered := true)];
      deliveries := deliveries + if stream.closed then [] else [Log.Delivery(stream, entry.id, entry.message)];
    }

    /** Writes the entries the client still has to see and marks them delivered. */
    method ReplayTo(stream: EventStreamWriter, lastEventId: Option<int>)
      modifies this`history, this`deliveries, stream`frames
      ensures stream.closed == old(stream.closed)
      ensures history == Log.Marked(old(history), lastEventId)
      ensures stream.frames == old(stream.frames)
        + if old(stream.closed) then [] else FramesOf(Log.Replay(old(history), lastEventId))
      ensures deliveries == old(deliveries)
        + if old(stream.closed) then [] else Log.Written(stream, Log.Replay(old(history), lastEventId))
    {
      ghost var before, marked := history, Log.Marked(history, lastEventId);
      ghost var replay: seq<Log.Entry>, frames: seq<Frame>, writes: seq<Log.Delivery<EventStreamWriter>> := [], [], [];
      var n := 0;
      NothingReplayed(stream, before, lastEventId);
      hide Log.Replay, FramesOf, Log.Written;
      while n < |history|
        invariant 0 <= n <= |history| == |before| == |marked|
        invariant forall m :: 0 <= m < |history| ==> history[m] == if m < n then marked[m] else before[m]
        invariant replay == Log.Replay(before[..n], lastEventId)
        invariant frames == FramesOf(replay) && writes == Log.Written(stream, replay)
        invariant stream.closed == old(stream.closed)
        invariant stream.frames == old(stream.frames) + if stream.closed then [] else frames
        invariant deliveries == old(deliveries) + if stream.closed then [] else writes
      {
        var entry := history[n];
        var wanted := Log.Wanted(entry, lastEventId);
        ReplayOneMore(before, n, lastEventId);
        assert marked[n] == if wanted then entry.(delivered := true) else entry;
        if wanted {
          WriteOneMore(stream, replay, entry);
          replay, frames := replay + [entry], frames + [FrameOf(entry)];
          writes := writes + [Log.Delivery(stream, entry.id, entry.message)];
          ReplayEntry(stream, n);
        }
        n := n + 1;
      }
      assert before[..n] == before && history == marked;
    }

    method AttachStream(stream: EventStreamWriter, lastEventId: Option<int>)
      requires Valid()
      modifies this, stream
      ensures Valid()
      ensures Model() == Log.AfterAttach(old(Model()), stream, !old(stream.closed), lastEventId)
      ensures stream.closed == old(stream.closed)
      ensures stream.closed ==> stream.frames == old(stream.frames)
      ensures !stream.closed ==> exists at :: Replays(old(history), lastEventId, old(stream.frames), stream.frames, at)
      ensures Marks(old(history), lastEventId, history)
      ensures streams == old(streams) + if stream in old(streams) then [] else [stream]
      ensures requestStreams == old(requestStreams) && pending == old(pending) && outcomes == old(outcomes)
    {
      hide Log.Replay, FramesOf, Log.Written, Replays, Marks, Log.Wanted, Log.Marked;
      MarkedMeans(history, lastEventId);
      ghost var at := ReplayedFrames(history, lastEventId, stream.frames);
      if stream !in streams {
        streams := streams + [stream];
      }
      ReplayTo(stream, lastEventId);
    }

    method DetachStream(stream: EventStreamWriter)
      requires Valid()
      modifies this`streams
      ensures Valid() && Model() == old(Model())
      ensures stream !in old(streams) ==> streams == old(streams)
      ensures stream in old(streams) ==> exists at ::
        0 <= at < |old(streams)| && old(streams)[at] == stream && streams == old(streams)[..at] + old(streams)[at + 1..]
    {
      for n := 0 to |streams|
        invariant streams == old(streams) && stream !in streams[..n]
      {
        if streams[n] == stream {
          streams := streams[..n] + streams[n + 1..];
          return;
        }
      }
      assert streams[..|streams|] == streams;
    }

    method BeginRequestStream(stream: EventStreamWriter)
      requires Valid()
      modifies this`requestStreams
      ensures Valid() && requestStreams == old(requestStreams) + [stream]
    {
      requestStreams := requestStreams + [stream];
    }

    /** Drops the last registration of a stream; others of the same stream stay. */
    method EndRequestStream(stream: EventStreamWriter)
      requires Valid()
      modifies this`requestStreams
      ensures Valid()
      ensures stream !in old(requestStreams) ==> requestStreams == old(requestStreams)
      ensures stream in old(requestStreams) ==> exists at ::
                && 0 <= at < |old(requestStreams)|
                && old(requestStreams)[at] == stream && stream !in old(requestStreams)[at + 1..]
                && requestStreams == old(requestStreams)[..at] + old(requestStreams)[at + 1..]
    {
      var at := |requestStreams|;
      while at > 0 && requestStreams[at - 1] != stream
        invariant 0 <= at <= |requestStreams|
        invariant stream !in requestStreams[at..]
      {
        at := at - 1;
      }
      if at > 0 {
        requestStreams := requestStreams[..at - 1] + requestStreams[at..];
      }
    }

    method LiveRequestStream() returns (found: Option<EventStreamWriter>)
      ensures found == NewestOpen(requestStreams)
      ensures found.Some? ==> found.value in requestStreams && !found.value.closed
    {
      var n := |requestStreams|;
      assert requestStreams[..n] == requestStreams;
      while n > 0
        invariant 0 <= n <= |requestStreams|
        invariant NewestOpen(requestStreams) == NewestOpen(requestStreams[..n])
      {
        n := n - 1;
        assert requestStreams[..n + 1][..n] == requestStreams[..n];
        if !requestStreams[n].closed {
          return Some(requestStreams[n]);
        }
      }
      return None;
    }

    method LiveStream() returns (newest: Option<EventStreamWriter>)
      ensures newest == NewestOpen(streams)
      ensures newest.Some? ==> newest.value in streams && !newest.value.closed
    {
      newest := None;
      for n := 0 to |streams|
        invariant newest == NewestOpen(streams[..n])
        invariant newest.Some? ==> newest.value in streams && !newest.value.closed
      {
        assert streams[..n + 1][..n] == streams[..n];
        if !streams[n].closed {
          newest := Some(streams[n]);
        }
      }
      assert streams[..|streams|] == streams;
    }

    method HasStream() returns (b: bool)
      ensures b <==> NewestOpen(requestStreams).Some? || NewestOpen(streams).Some?
      ensures b <==> exists w :: (w in requestStreams || w in streams) && !w.closed
    {
      NewestOpenIsLastOpen(requestStreams);
      NewestOpenIsLastOpen(streams);
      var onRequest := LiveRequestStream();
      var standalone := LiveStream();
      b := onRequest.Some? || standalone.Some?;
    }

    /** The one stream a message goes to: the preferred one while it is open, else the newest standalone one. */
    ghost function TargetOf(preferred: Option<EventStreamWriter>): Option<EventStreamWriter>
      reads this, streams, if preferred.Some? then {preferred.value} else {}
    {
      if preferred.Some? && !preferred.value.closed then preferred else NewestOpen(streams)
    }

    /** Files a message under the next event id; the oldest entry goes once the history is full. */
    method Record(message: string, ghost target: Option<EventStreamWriter>, delivered: bool) returns (id: nat)
      requires delivered == target.Some?
      modifies this`history, this`nextEventId, this`sent, this`deliveries
      ensures id == old(nextEventId) && Model() == Log.AfterSend(old(Model()), message, target)
    {
      id := nextEventId;
      nextEventId := nextEventId + 1;
      history := history + [Log.Entry(id, message, delivered)];
      if |history| > Log.HISTORY_LIMIT {
        history := history[1..];
      }
      sent := sent + [message];
      deliveries := deliveries + if target.Some? then [Log.Delivery(target.value, id, message)] else [];
    }

    method Deliver(message: string, preferred: Option<EventStreamWriter>)
      requires Valid() && (preferred.Some? ==> preferred.value in requestStreams)
      modifies this`history, this`nextEventId, this`sent, this`deliveries, streams, requestStreams
      ensures Valid() && Model() == Log.AfterSend(old(Model()), message, old(TargetOf(preferred)))
      ensures forall w :: w in streams || w in requestStreams ==>
        && w.closed == old(w.closed)
        && w.frames == old(w.frames) + if old(TargetOf(preferred)) == Some(w) then [Message(Some(old(nextEventId)), message)] else []
    {
      hide NewestOpen, Log.AfterSend;
      var target := preferred;
      if preferred.None? || preferred.value.closed {
        target := LiveStream();
      }
      assert target == TargetOf(preferred);
      var id := Record(message, target, target.Some?);
      if target.Some? {
        target.value.Write(message, Some(id));
      }
    }

    method SendNotification(message: string)
      requires Valid()
      modifies this, streams, requestStreams
      ensures Valid() && Model() == Log.AfterSend(old(Model()), message, old(NewestOpen(streams)))
      ensures streams == old(streams) && requestStreams == old(requestStreams)
      ensures forall w :: w in streams || w in requestStreams ==>
        && w.closed == old(w.closed)
        && w.frames == old(w.frames) + if old(NewestOpen(streams)) == Some(w) then [Message(Some(old(nextEventId)), message)] else []
    {
      Deliver(message, None);
    }

    /** `message(n)` is the text of the request issued under the id `srv-n`. */
    method SendRequest(message: nat -> string) returns (id: Option<nat>)
      requires Valid()
      modifies this, streams, requestStreams
      ensures Valid()
      ensures id.None? <==> forall w :: w in old(streams) || w in old(requestStreams) ==> old(w.closed)
      ensures streams == old(streams) && requestStreams == old(requestStreams)
      ensures forall w :: w in streams || w in requestStreams ==> w.closed == old(w.closed)
      ensures id.None? ==> forall w :: w in streams || w in requestStreams ==> w.frames == old(w.frames)
      ensures id.Some? ==> forall w :: w in streams || w in requestStreams ==>
        w.frames == old(w.frames)
          + if old(if NewestOpen(requestStreams).Some? then NewestOpen(requestStreams) else NewestOpen(streams)) == Some(w)
            then [Message(Some(old(nextEventId)), message(id.value))] else []
      ensures id.None? ==> Model() == old(Model()) && pending == old(pending) && outcomes == old(outcomes)
      ensures id.Some? ==>
        && id.value == old(nextRequestId) && id.value !in old(pending) && id.value !in outcomes
        && pending == old(pending) + {id.value} && outcomes == old(outcomes)
        && Model() == Log.AfterSend(old(Model()), message(id.value),
             old(if NewestOpen(requestStreams).Some? then NewestOpen(requestStreams) else NewestOpen(streams)))
    {
      hide NewestOpen, Log.AfterSend;
      var reachable := HasStream();
      if !reachable {
        return None;
      }
      var n := nextRequestId;
      nextRequestId := nextRequestId + 1;
      pending := pending + {n};
      var preferred := LiveRequestStream();
      Deliver(message(n), preferred);
      return Some(n);
    }

    /** Settles a promise; every promise is settled once at most. */
    method Settle(id: nat, outcome: Outcome) returns (handled: bool)
      requires Valid()
      modifies this`pending, this`outcomes
      ensures Valid() && Model() == old(Model())
      ensures handled == (id in old(pending))
      ensures pending == old(pending) - {id}
      ensures outcomes == if handled then old(outcomes)[id := outcome] else old(outcomes)
      ensures handled ==> id !in old(outcomes)
    {
      handled := id in pending;
      if handled {
        pending := pending - {id};
        outcomes := outcomes[id := outcome];
      }
    }

    method Close()
      requires Valid()
      modifies this, streams, requestStreams
      ensures Valid() && closedFlag && Model() == old(Model())
      ensures streams == [] && requestStreams == [] && pending == {}
      ensures forall w :: w in old(streams) || w in old(requestStreams) ==> w.closed && w.frames == old(w.frames)
      ensures outcomes == map id | id in old(outcomes).Keys + old(pending) ::
                if id in old(pending) then SessionClosed else old(outcomes)[id]
    {
      closedFlag := true;
      outcomes := map id | id in outcomes.Keys + pending :: if id in pending then SessionClosed else outcomes[id];
      pending := {};
      EndAll(streams);
      EndAll(requestStreams);
      streams, requestStreams := [], [];
    }
  }

  method EndAll(streams: seq<EventStreamWriter>)
    modifies streams
    ensures forall w :: w in streams ==> w.closed && w.frames == old(w.frames)
  {
    for n := 0 to |streams|
      invariant forall w :: w in streams ==> w.frames == old(w.frames)
      invariant forall m :: 0 <= m < n ==> streams[m].closed
    {
      streams[n].End();
    }
  }
}
