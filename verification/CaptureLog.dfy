/** The API capture log: writers feed a bounded queue or a drop counter, one task writes both out. */
module CaptureLog {
  import opened Common

  const QUEUE: nat := 1024

  /** An entry about one response stream, or written directly through a handle. */
  datatype Event = OfStream(stream: nat) | Direct(entry: nat)

  /** One attempt to send, in the order of the attempts. */
  datatype Attempt = Attempt(event: Event, accepted: bool)

  datatype Line = Entry(event: Event) | DroppedSummary(count: nat)

  /** Where the writing task stands; `hand` is the event it has taken from the queue. */
  datatype Writer =
    | Waiting
    | Swapping(hand: Option<Event>, closing: bool)
    | Reporting(count: nat, hand: Option<Event>, closing: bool)
    | Writing(event: Event)
    | Done

  datatype Stream = Open | Logged | Dropping

  /**
   * `handles` are the live senders, one per stream under the stream's number; `refused` are the handles with a
   * refused send not counted yet; `released` the streams that are gone.
   */
  datatype State = State(
    queue: seq<Event>, dropped: nat, refused: multiset<nat>, handles: set<nat>,
    streams: map<nat, Stream>, released: set<nat>,
    writer: Writer, attempts: seq<Attempt>, output: seq<Line>)

  datatype Step =
    | Clone(from: nat, handle: nat)
    | OpenStream(from: nat, stream: nat)
    | WriteDirect(handle: nat, entry: nat)
    | EndStream(stream: nat)
    | DropStream(stream: nat)
    | ReleaseStream(stream: nat)
    | CountDrop(handle: nat)
    | DropHandle(handle: nat)
    | Receive
    | Tick
    | ReceiveClosed
    | Swap
    | Report
    | WriteEntry

  function Initial(handle: nat): State {
    State([], 0, multiset{}, {handle}, map[], {}, Waiting, [], [])
  }

  predicate Unused(s: State, handle: nat) {
    handle !in s.handles && handle !in s.streams && handle !in s.released
  }

  predicate Enabled(s: State, step: Step) {
    match step
    case Clone(from, handle) => from in s.handles && Unused(s, handle)
    case OpenStream(from, stream) => from in s.handles && Unused(s, stream)
    case WriteDirect(handle, _) => handle in s.handles && handle !in s.streams
    case EndStream(stream) => stream in s.streams && !s.streams[stream].Dropping?
    case DropStream(stream) => stream in s.streams && !s.streams[stream].Dropping?
    case ReleaseStream(stream) => stream in s.streams && s.streams[stream].Dropping? && stream !in s.refused
    case CountDrop(handle) => handle in s.refused
    case DropHandle(handle) => handle in s.handles && handle !in s.streams && handle !in s.refused
    case Receive => s.writer.Waiting? && s.queue != []
    case Tick => s.writer.Waiting?
    case ReceiveClosed => s.writer.Waiting? && s.queue == [] && s.handles == {}
    case Swap => s.writer.Swapping?
    case Report => s.writer.Reporting?
    case WriteEntry => s.writer.Writing?
  }

  /** A non-blocking send: queued when there is room, otherwise refused and left to be counted. */
  function TrySend(s: State, handle: nat, event: Event): State {
    if |s.queue| < QUEUE
    then s.(queue := s.queue + [event], attempts := s.attempts + [Attempt(event, true)])
    else s.(refused := s.refused + multiset{handle}, attempts := s.attempts + [Attempt(event, false)])
  }

  /** Logs a stream the first time it ends, fails or is dropped. */
  function LogOnce(s: State, stream: nat, standing: Stream): State
    requires stream in s.streams
  {
    var t := s.(streams := s.streams[stream := standing]);
    if s.streams[stream].Open? then TrySend(t, stream, OfStream(stream)) else t
  }

  function Next(s: State, step: Step): State
    requires Enabled(s, step)
  {
    match step
    case Clone(_, handle) => s.(handles := s.handles + {handle})
    case OpenStream(_, stream) => s.(handles := s.handles + {stream}, streams := s.streams[stream := Open])
    case WriteDirect(handle, entry) => TrySend(s, handle, Direct(entry))
    case EndStream(stream) => LogOnce(s, stream, Logged)
    case DropStream(stream) => LogOnce(s, stream, Dropping)
    case ReleaseStream(stream) =>
      s.(handles := s.handles - {stream}, streams := s.streams - {stream}, released := s.released + {stream})
    case CountDrop(handle) => s.(refused := s.refused - multiset{handle}, dropped := s.dropped + 1)
    case DropHandle(handle) => s.(handles := s.handles - {handle})
    case Receive => s.(queue := s.queue[1..], writer := Swapping(Some(s.queue[0]), false))
    case Tick => s.(writer := Swapping(None, false))
    case ReceiveClosed => s.(writer := Swapping(None, true))
    case Swap => s.(dropped := 0, writer := Reporting(s.dropped, s.writer.hand, s.writer.closing))
    case Report =>
      s.(output := if s.writer.count == 0 then s.output else s.output + [DroppedSummary(s.writer.count)],
         writer := if s.writer.hand.Some? then Writing(s.writer.hand.value)
                   else if s.writer.closing then Done
                   else Waiting)
    case WriteEntry => s.(output := s.output + [Entry(s.writer.event)], writer := Waiting)
  }

  // ---- What is conserved ----

  function Accepted(attempts: seq<Attempt>): seq<Event> {
    if attempts == [] then []
    else
      var last := attempts[|attempts| - 1];
      Accepted(attempts[..|attempts| - 1]) + (if last.accepted then [last.event] else [])
  }

  function Refusals(attempts: seq<Attempt>): nat {
    if attempts == [] then 0
    else Refusals(attempts[..|attempts| - 1]) + (if attempts[|attempts| - 1].accepted then 0 else 1)
  }

  function Entries(output: seq<Line>): seq<Event> {
    if output == [] then []
    else
      var last := output[|output| - 1];
      Entries(output[..|output| - 1]) + (if last.Entry? then [last.event] else [])
  }

  function Reported(output: seq<Line>): nat {
    if output == [] then 0
    else
      var last := output[|output| - 1];
      Reported(output[..|output| - 1]) + (if last.DroppedSummary? then last.count else 0)
  }

  function AttemptsOf(attempts: seq<Attempt>, stream: nat): nat {
    if attempts == [] then 0
    else
      AttemptsOf(attempts[..|attempts| - 1], stream)
      + (if attempts[|attempts| - 1].event == OfStream(stream) then 1 else 0)
  }

  /** The event the writer has taken but not written. */
  function Held(w: Writer): seq<Event> {
    match w
    case Swapping(Some(event), _) => [event]
    case Reporting(_, Some(event), _) => [event]
    case Writing(event) => [event]
    case _ => []
  }

  /** The drops the writer has taken from the counter but not reported. */
  function Uncounted(w: Writer): nat {
    if w.Reporting? then w.count else 0
  }

  predicate Closing(w: Writer) {
    w.Done? || (w.Swapping? && w.closing) || (w.Reporting? && w.closing)
  }

  ghost predicate FlowOk(s: State) {
    && |s.queue| <= QUEUE
    && Accepted(s.attempts) == Entries(s.output) + Held(s.writer) + s.queue
    && Refusals(s.attempts) == |s.refused| + s.dropped + Uncounted(s.writer) + Reported(s.output)
  }

  ghost predicate HandlesOk(s: State) {
    && (forall h :: h in s.refused ==> h in s.handles)
    && s.streams.Keys <= s.handles
    && s.streams.Keys !! s.released
    && (Closing(s.writer) ==> s.handles == {} && s.queue == [])
    && (s.writer.Done? || (s.writer.Reporting? && s.writer.closing) ==> s.dropped == 0)
    && (s.writer.Swapping? && s.writer.closing ==> s.writer.hand.None?)
    && (s.writer.Reporting? && s.writer.closing ==> s.writer.hand.None?)
  }

  ghost predicate StreamsOk(s: State) {
    forall id: nat :: AttemptsOf(s.attempts, id) ==
      if id in s.streams then (if s.streams[id].Open? then 0 else 1)
      else if id in s.released then 1
      else 0
  }

  ghost predicate Inv(s: State) {
    FlowOk(s) && HandlesOk(s) && StreamsOk(s)
  }

  lemma {:induction false} AttemptSnoc(attempts: seq<Attempt>, a: Attempt)
    ensures Accepted(attempts + [a]) == Accepted(attempts) + (if a.accepted then [a.event] else [])
    ensures Refusals(attempts + [a]) == Refusals(attempts) + (if a.accepted then 0 else 1)
    ensures forall id: nat :: AttemptsOf(attempts + [a], id)
                           == AttemptsOf(attempts, id) + (if a.event == OfStream(id) then 1 else 0)
  {
    assert (attempts + [a])[..|attempts|] == attempts;
  }

  lemma {:induction false} LineSnoc(output: seq<Line>, line: Line)
    ensures Entries(output + [line]) == Entries(output) + (if line.Entry? then [line.event] else [])
    ensures Reported(output + [line]) == Reported(output) + (if line.DroppedSummary? then line.count else 0)
  {
    assert (output + [line])[..|output|] == output;
  }

  lemma {:induction false} SendKeepsFlow(s: State, handle: nat, event: Event)
    requires FlowOk(s) && HandlesOk(s) && handle in s.handles
    ensures FlowOk(TrySend(s, handle, event)) && HandlesOk(TrySend(s, handle, event))
  {
    hide Accepted;
    hide Refusals;
    AttemptSnoc(s.attempts, Attempt(event, |s.queue| < QUEUE));
    AppendAssoc(Entries(s.output) + Held(s.writer), s.queue, [event]);
    assert Accepted(s.attempts) + [] == Accepted(s.attempts);
  }

  lemma {:induction false} SendKeepsStreams(s: State, handle: nat, event: Event, id: nat)
    ensures AttemptsOf(TrySend(s, handle, event).attempts, id)
         == AttemptsOf(s.attempts, id) + (if event == OfStream(id) then 1 else 0)
  {
    AttemptSnoc(s.attempts, Attempt(event, |s.queue| < QUEUE));
  }

  lemma {:induction false} SenderStep(s: State, step: Step)
    requires Inv(s) && Enabled(s, step)
    requires step.WriteDirect? || step.EndStream? || step.DropStream?
    ensures Inv(Next(s, step))
  {
    hide FlowOk;
    hide AttemptsOf;
    var t := Next(s, step);
    if step.WriteDirect? {
      SendKeepsFlow(s, step.handle, Direct(step.entry));
      forall id: nat
        ensures AttemptsOf(t.attempts, id) == AttemptsOf(s.attempts, id)
      {
        SendKeepsStreams(s, step.handle, Direct(step.entry), id);
      }
    } else {
      var moved := s.(streams := s.streams[step.stream := if step.EndStream? then Logged else Dropping]);
      assert moved.streams.Keys == s.streams.Keys;
      FlowIgnoresStreams(s, moved);
      if s.streams[step.stream].Open? {
        SendKeepsFlow(moved, step.stream, OfStream(step.stream));
        forall id: nat
          ensures AttemptsOf(t.attempts, id) == AttemptsOf(s.attempts, id) + (if id == step.stream then 1 else 0)
        {
          SendKeepsStreams(moved, step.stream, OfStream(step.stream), id);
        }
      }
    }
  }

  lemma {:induction false} FlowIgnoresStreams(s: State, t: State)
    requires FlowOk(s)
    requires t.queue == s.queue && t.attempts == s.attempts && t.output == s.output && t.writer == s.writer
    requires t.dropped == s.dropped && t.refused == s.refused
    ensures FlowOk(t)
  {
  }

  /** Steps that only move handles and streams about. */
  lemma {:induction false} HandleStep(s: State, step: Step)
    requires Inv(s) && Enabled(s, step)
    requires step.Clone? || step.OpenStream? || step.ReleaseStream? || step.DropHandle? || step.CountDrop?
    ensures Inv(Next(s, step))
  {
    hide Accepted;
    hide Entries;
    hide Refusals;
    hide Reported;
    hide AttemptsOf;
    var t := Next(s, step);
    assert step.CountDrop? ==> |t.refused| == |s.refused| - 1;
  }

  lemma {:induction false} WriterStep(s: State, step: Step)
    requires Inv(s) && Enabled(s, step)
    requires step.Receive? || step.Tick? || step.ReceiveClosed? || step.Swap? || step.Report? || step.WriteEntry?
    ensures Inv(Next(s, step))
  {
    hide AttemptsOf;
    hide Accepted;
    hide Refusals;
    hide Entries;
    hide Reported;
    var t := Next(s, step);
    if step.Receive? {
      HeadTail(s.queue);
      AppendAssoc(Entries(s.output), [s.queue[0]], s.queue[1..]);
      assert Entries(s.output) + [] == Entries(s.output);
    } else if step.Report? {
      LineSnoc(s.output, DroppedSummary(s.writer.count));
      assert Entries(s.output) + [] == Entries(s.output);
    } else if step.WriteEntry? {
      LineSnoc(s.output, Entry(s.writer.event));
      assert t.output == s.output + [Entry(s.writer.event)];
      assert Entries(t.output) + [] == Entries(t.output);
    } else if step.Swap? {
      assert s.handles == {} ==> |s.refused| == 0 by {
        if s.handles == {} {
          assert forall h :: h !in s.refused;
          assert s.refused == multiset{};
        }
      }
    }
  }

  lemma {:induction false} StepKeepsInv(s: State, step: Step)
    requires Inv(s) && Enabled(s, step)
    ensures Inv(Next(s, step))
  {
    hide Inv;
    hide Next;
    if step.WriteDirect? || step.EndStream? || step.DropStream? {
      SenderStep(s, step);
    } else if step.Clone? || step.OpenStream? || step.ReleaseStream? || step.DropHandle? || step.CountDrop? {
      HandleStep(s, step);
    } else {
      WriterStep(s, step);
    }
  }

  // ---- Sends ----

  /** The event a step tries to send, if any: a direct entry, or an open stream that ends or is dropped. */
  function Sends(s: State, step: Step): Option<Event> {
    match step
    case WriteDirect(_, entry) => Some(Direct(entry))
    case EndStream(stream) => if stream in s.streams && s.streams[stream].Open? then Some(OfStream(stream)) else None
    case DropStream(stream) => if stream in s.streams && s.streams[stream].Open? then Some(OfStream(stream)) else None
    case _ => None
  }

  /** A send is refused exactly when 1024 events are queued; an accepted one goes to the end of the queue. */
  lemma {:induction false} SendOutcome(s: State, step: Step)
    requires Enabled(s, step)
    ensures var t := Next(s, step);
            match Sends(s, step)
            case None => t.attempts == s.attempts && (t.queue == s.queue || (step.Receive? && s.queue == [s.queue[0]] + t.queue))
            case Some(event) =>
              && t.attempts == s.attempts + [Attempt(event, |s.queue| < 1024)]
              && t.queue == (if |s.queue| < 1024 then s.queue + [event] else s.queue)
              && (t.dropped == s.dropped && t.output == s.output && t.writer == s.writer)
  {
    if step.Receive? {
      HeadTail(s.queue);
    }
  }

  // ---- Whole runs ----

  ghost predicate Run(s: State, steps: seq<Step>)
    decreases |steps|
  {
    steps == [] || (Enabled(s, steps[0]) && Run(Next(s, steps[0]), steps[1..]))
  }

  function After(s: State, steps: seq<Step>): State
    requires Run(s, steps)
    decreases |steps|
  {
    if steps == [] then s else After(Next(s, steps[0]), steps[1..])
  }

  lemma {:induction false} RunKeepsInv(s: State, steps: seq<Step>)
    requires Inv(s) && Run(s, steps)
    ensures Inv(After(s, steps))
    decreases |steps|
  {
    hide Inv;
    if steps != [] {
      StepKeepsInv(s, steps[0]);
      RunKeepsInv(Next(s, steps[0]), steps[1..]);
    }
  }

  lemma {:induction false} AttemptCount(attempts: seq<Attempt>)
    ensures |attempts| == |Accepted(attempts)| + Refusals(attempts)
  {
    if attempts != [] {
      AttemptCount(attempts[..|attempts| - 1]);
    }
  }

  /**
   * Conservation in every reachable state: each attempted event is queued, in the writer's hand, written, or
   * refused; and each refusal is still to be counted, in the counter, taken by the writer, or reported.
   * The written entries are the accepted events in order, as far as they have come.
   */
  lemma {:induction false} Conservation(handle: nat, steps: seq<Step>)
    requires Run(Initial(handle), steps)
    ensures var s := After(Initial(handle), steps);
            && |s.attempts| == |s.queue| + |Held(s.writer)| + |Entries(s.output)|
                             + |s.refused| + s.dropped + Uncounted(s.writer) + Reported(s.output)
            && Accepted(s.attempts) == Entries(s.output) + Held(s.writer) + s.queue
            && |s.queue| <= QUEUE
  {
    RunKeepsInv(Initial(handle), steps);
    AttemptCount(After(Initial(handle), steps).attempts);
  }

  /** Between the writer's turns, with no send in flight, nothing is in transit. */
  lemma {:induction false} ConservationAtRest(handle: nat, steps: seq<Step>)
    requires Run(Initial(handle), steps)
    requires After(Initial(handle), steps).writer.Waiting? && After(Initial(handle), steps).refused == multiset{}
    ensures var s := After(Initial(handle), steps);
            |s.attempts| == |s.queue| + |Entries(s.output)| + s.dropped + Reported(s.output)
  {
    Conservation(handle, steps);
  }

  /** When the drain flag is set every event was written in order or counted in a summary, and nothing is left. */
  lemma {:induction false} Drained(handle: nat, steps: seq<Step>)
    requires Run(Initial(handle), steps) && After(Initial(handle), steps).writer.Done?
    ensures var s := After(Initial(handle), steps);
            && s.queue == [] && s.dropped == 0 && s.handles == {} && s.streams == map[]
            && Entries(s.output) == Accepted(s.attempts)
            && |s.attempts| == |Entries(s.output)| + Reported(s.output)
  {
    RunKeepsInv(Initial(handle), steps);
    var s := After(Initial(handle), steps);
    AttemptCount(s.attempts);
    assert s.refused == multiset{} by {
      assert forall h :: h !in s.refused;
    }
    assert Entries(s.output) + [] + [] == Entries(s.output);
  }

  /** Summaries are written only for drops. */
  ghost predicate SummariesCount(s: State) {
    forall i :: 0 <= i < |s.output| && s.output[i].DroppedSummary? ==> s.output[i].count > 0
  }

  lemma {:induction false} SummariesThroughout(s: State, steps: seq<Step>)
    requires SummariesCount(s) && Run(s, steps)
    ensures SummariesCount(After(s, steps))
    decreases |steps|
  {
    if steps != [] {
      assert forall i :: 0 <= i < |s.output| && i < |Next(s, steps[0]).output| ==> Next(s, steps[0]).output[i] == s.output[i];
      SummariesThroughout(Next(s, steps[0]), steps[1..]);
    }
  }

  /** The queue has room at every step of a run. */
  ghost predicate NeverFull(s: State, steps: seq<Step>)
    requires Run(s, steps)
    decreases |steps|
  {
    |s.queue| < 1024 && (steps != [] ==> NeverFull(Next(s, steps[0]), steps[1..]))
  }

  lemma {:induction false} NoneRefused(s: State, steps: seq<Step>)
    requires Run(s, steps) && NeverFull(s, steps)
    ensures Refusals(After(s, steps).attempts) == Refusals(s.attempts)
    decreases |steps|
  {
    hide Next;
    hide Enabled;
    hide Refusals;
    if steps != [] {
      SendOutcome(s, steps[0]);
      if Sends(s, steps[0]).Some? {
        AttemptSnoc(s.attempts, Attempt(Sends(s, steps[0]).value, true));
      }
      NoneRefused(Next(s, steps[0]), steps[1..]);
    }
  }

  /** As long as the queue never fills up nothing is dropped and no summary is ever written. */
  lemma {:induction false} NothingDropped(handle: nat, steps: seq<Step>)
    requires Run(Initial(handle), steps) && NeverFull(Initial(handle), steps)
    ensures var s := After(Initial(handle), steps);
            && |Accepted(s.attempts)| == |s.attempts| && s.dropped == 0
            && forall i :: 0 <= i < |s.output| ==> s.output[i].Entry?
  {
    hide Next;
    RunKeepsInv(Initial(handle), steps);
    NoneRefused(Initial(handle), steps);
    SummariesThroughout(Initial(handle), steps);
    var s := After(Initial(handle), steps);
    hide After;
    AttemptCount(s.attempts);
    NothingReported(s.output);
  }

  lemma {:induction false} NothingReported(output: seq<Line>)
    requires Reported(output) == 0
    ensures forall i :: 0 <= i < |output| && output[i].DroppedSummary? ==> output[i].count == 0
  {
    if output != [] {
      NothingReported(output[..|output| - 1]);
      assert forall i :: 0 <= i < |output| - 1 ==> output[i] == output[..|output| - 1][i];
    }
  }

  /** A stream is logged once, however it goes: never while open, exactly once from its end, failure or drop on. */
  lemma {:induction false} StreamLoggedOnce(handle: nat, steps: seq<Step>, stream: nat)
    requires Run(Initial(handle), steps)
    ensures var s := After(Initial(handle), steps);
            && (stream in s.released ==> AttemptsOf(s.attempts, stream) == 1)
            && (stream in s.streams ==> AttemptsOf(s.attempts, stream) == if s.streams[stream].Open? then 0 else 1)
  {
    RunKeepsInv(Initial(handle), steps);
  }

  /** The channel is never closed under a live sender, so a send is only ever queued or refused for lack of room. */
  lemma {:induction false} NeverClosedUnderSender(handle: nat, steps: seq<Step>)
    requires Run(Initial(handle), steps)
    ensures var s := After(Initial(handle), steps);
            (s.handles != {} || s.refused != multiset{} ==> !s.writer.Done?) && (s.refused != multiset{} ==> s.handles != {})
  {
    RunKeepsInv(Initial(handle), steps);
    var s := After(Initial(handle), steps);
    if s.refused != multiset{} {
      var h :| h in s.refused;
      assert h in s.handles;
    }
  }
}

/** Body bytes kept for the log, up to a limit. */
module CapturedBodies {
  import opened Common

  const USIZE_MAX: nat := 0xFFFF_FFFF_FFFF_FFFF

  function Prefix<T>(s: seq<T>, n: nat): seq<T> {
    if |s| <= n then s else s[..n]
  }

  class CapturedBody<T> {
    var totalBytes: nat
    var captured: seq<T>
    const limit: nat
    /** Everything appended so far. */
    ghost var received: seq<T>

    ghost predicate Valid()
      reads this
    {
      && captured == Prefix(received, limit)
      && totalBytes == if |received| <= USIZE_MAX then |received| else USIZE_MAX
    }

    constructor (limit: nat)
      ensures Valid() && received == [] && this.limit == limit
    {
      this.limit := limit;
      totalBytes, captured, received := 0, [], [];
    }

    /** The captured bytes stay the longest prefix of the whole body that fits the limit, however it is chunked. */
    method Append(chunk: seq<T>)
      requires Valid()
      modifies this
      ensures Valid() && received == old(received) + chunk
      ensures captured == Prefix(old(received) + chunk, limit)
    {
      PrefixAppend(received, chunk, limit);
      totalBytes := if totalBytes + |chunk| <= USIZE_MAX then totalBytes + |chunk| else USIZE_MAX;
      var remaining := if |captured| <= limit then limit - |captured| else 0;
      if remaining > 0 {
        var toCapture := if remaining < |chunk| then remaining else |chunk|;
        captured := captured + chunk[..toCapture];
      }
      received := received + chunk;
    }
  }

  lemma {:induction false} PrefixAppend<T>(s: seq<T>, chunk: seq<T>, limit: nat)
    ensures var kept := Prefix(s, limit);
            var room := limit - |kept|;
            Prefix(s + chunk, limit) == kept + chunk[..if room < |chunk| then room else |chunk|]
  {
    if |s| >= limit {
      assert Prefix(s, limit) == s[..limit];
      assert (s + chunk)[..limit] == s[..limit];
    } else if |s| + |chunk| > limit {
      assert (s + chunk)[..limit] == s + chunk[..limit - |s|];
    }
  }
}
