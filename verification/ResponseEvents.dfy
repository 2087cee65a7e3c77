/** The event stream of a text response (c3r/responses.py:41-136): what it emits for any backend,
    and that it always ends. */
module ResponseEvents {
  import opened Schema
  import opened Unicode
  import opened GenerationStream

  const MAX_TEXT_BYTES: nat := 65_536

  /** The fields of each event that depend on the stream. */
  datatype Event =
    | Created
    | Delta(text: Text)
    | TextDone(text: Text)
    | Completed(finish: Finish, text: Text, usage: Option<Usage>)
    | Failed(text: Text, usage: Option<Usage>)

  datatype Stream = Stream(
    started: bool,
    done: bool,
    pending: seq<Event>,
    text: Text,
    finish: Option<Finish>,
    usage: Option<Usage>,
    reader: Reader)

  const OPENED: Stream := Stream(false, false, [], [], None, None, FRESH)

  datatype Emission = Emission(stream: Stream, event: Option<Event>)

  /** The except clause: close the backend and report what was received. */
  function Fail(s: Stream): Emission {
    Emission(s.(done := true, reader := Closed(s.reader)), Some(Failed(s.text, s.usage)))
  }

  predicate WithinLimit(text: Text) { Encodable(text) && Utf8Length(text) <= MAX_TEXT_BYTES }

  /** One turn of `while True`; `event` is `None` when the loop goes on. */
  function PullTurn(src: Source, s: Stream): Emission {
    var step := NextOf(src, s.reader);
    var s1 := s.(reader := step.reader);
    match step.next
    case Raised => Fail(s1)
    case Stopped =>
      if s1.finish.None? then Fail(s1)
      else Emission(s1.(done := true, pending := s1.pending + [Completed(s1.finish.value, s1.text, s1.usage)]), Some(TextDone(s1.text)))
    case Yielded(chunk) =>
      var s2 := s1.(usage := if chunk.usage.Some? then chunk.usage else s1.usage);
      var finish := if chunk.finish.Some? then chunk.finish else s2.finish;
      if chunk.content == [] then Emission(s2.(finish := finish), None)
      else if s2.finish.Some? then Fail(s2)
      else
        var s3 := s2.(text := s2.text + chunk.content);
        if !WithinLimit(s3.text) then Fail(s3)
        else Emission(s3.(finish := finish), Some(Delta(chunk.content)))
  }

  lemma PullTurnSpends(src: Source, s: Stream)
    ensures PullTurn(src, s).event.None? || PullTurn(src, s).event.value.Delta? ==>
              Budget(PullTurn(src, s).stream.reader) < Budget(s.reader)
  {
    ReadOnSpends(src, s.reader);
  }

  function Pull(src: Source, s: Stream): Emission
    decreases Budget(s.reader)
  {
    PullTurnSpends(src, s);
    var e := PullTurn(src, s);
    if e.event.Some? then e else Pull(src, e.stream)
  }

  /** `ResponseEventStream.__next__`; `None` is StopIteration. */
  function NextEvent(src: Source, s: Stream): Emission {
    if s.pending != [] then Emission(s.(pending := s.pending[1..]), Some(s.pending[0]))
    else if s.done then Emission(s, None)
    else if !s.started then Emission(s.(started := true), Some(Created))
    else Pull(src, s)
  }

  class ResponseEventStream {
    const backend: TextGenerationStream
    var started: bool
    var done: bool
    var pending: seq<Event>
    var text: Text
    var finish: Option<Finish>
    var usage: Option<Usage>

    function State(): Stream
      reads this, backend
    {
      Stream(started, done, pending, text, finish, usage, backend.State())
    }

    constructor (backend: TextGenerationStream)
      requires backend.State() == FRESH
      ensures this.backend == backend && State() == OPENED
    {
      this.backend := backend;
      started, done, pending, text, finish, usage := false, false, [], [], None, None;
    }

    method Next() returns (event: Option<Event>)
      modifies this, backend
      ensures Emission(State(), event) == NextEvent(backend.src, old(State()))
    {
      if pending != [] {
        event := Some(pending[0]);
        pending := pending[1..];
        return;
      }
      if done {
        return None;
      }
      if !started {
        started := true;
        return Some(Created);
      }
      while true
        invariant Pull(backend.src, State()) == Pull(backend.src, old(State()))
        decreases Budget(backend.State())
      {
        ghost var before := State();
        PullTurnSpends(backend.src, before);
        var next := backend.Next();
        if next.Raised? || (next.Stopped? && finish.None?) {
          event := ReportFailure();
          return;
        }
        if next.Stopped? {
          done := true;
          pending := pending + [Completed(finish.value, text, usage)];
          return Some(TextDone(text));
        }
        var chunk := next.chunk;
        if chunk.usage.Some? {
          usage := chunk.usage;
        }
        if chunk.content != [] {
          if finish.Some? {
            event := ReportFailure();
            return;
          }
          text := text + chunk.content;
          if !WithinLimit(text) {
            event := ReportFailure();
            return;
          }
          if chunk.finish.Some? {
            finish := chunk.finish;
          }
          return Some(Delta(chunk.content));
        }
        if chunk.finish.Some? {
          finish := chunk.finish;
        }
      }
    }

    method ReportFailure() returns (event: Option<Event>)
      modifies this, backend
      ensures Emission(State(), event) == Fail(old(State()))
    {
      backend.Abort();
      done := true;
      return Some(Failed(text, usage));
    }
  }

  // ----- Runs

  datatype Run = Run(stream: Stream, events: seq<Event>)

  /** `n` calls of `__next__`. */
  function Calls(src: Source, n: nat): Run {
    if n == 0 then Run(OPENED, [])
    else
      var before := Calls(src, n - 1);
      var e := NextEvent(src, before.stream);
      Run(e.stream, if e.event.Some? then before.events + [e.event.value] else before.events)
  }

  function Deltas(events: seq<Event>): Text {
    if events == [] then []
    else
      var last := events[|events| - 1];
      if last.Delta? then Deltas(events[..|events| - 1]) + last.text else Deltas(events[..|events| - 1])
  }

  /** `response.created`, then deltas only. */
  predicate CreatedThenDeltas(events: seq<Event>) {
    events != [] && events[0] == Created && forall i :: 1 <= i < |events| ==> events[i].Delta?
  }

  /** What the stream has emitted, given where it stands. */
  predicate Consistent(run: Run) {
    var s, events := run.stream, run.events;
    (s.finish.Some? ==> s.reader.sawFinish) &&
    if !s.started then s == OPENED && events == []
    else if !s.done then
      && s.pending == [] && CreatedThenDeltas(events) && Deltas(events) == s.text && WithinLimit(s.text)
      && s.reader.bytes <= MAX_RESPONSE_BYTES && |events| <= 1 + s.reader.bytes
    else if s.pending != [] then
      && s.finish.Some? && s.pending == [Completed(s.finish.value, s.text, s.usage)]
      && |events| >= 1 && events[|events| - 1] == TextDone(s.text)
      && CreatedThenDeltas(events[..|events| - 1]) && Deltas(events) == s.text && WithinLimit(s.text)
    else
      (EndsCompleted(events) && s.finish.Some?) || EndsFailed(events)
  }

  /** created delta* output_text.done completed, with the text of the deltas. */
  predicate EndsCompleted(events: seq<Event>) {
    && |events| >= 3
    && CreatedThenDeltas(events[..|events| - 2])
    && events[|events| - 2] == TextDone(Deltas(events))
    && events[|events| - 1].Completed? && events[|events| - 1].text == Deltas(events)
    && WithinLimit(Deltas(events))
  }

  /** created delta* failed, the deltas a prefix of the reported text. */
  predicate EndsFailed(events: seq<Event>) {
    && |events| >= 2
    && CreatedThenDeltas(events[..|events| - 1])
    && events[|events| - 1].Failed? && Deltas(events) <= events[|events| - 1].text
  }

  lemma DeltasAppend(events: seq<Event>, e: Event)
    ensures Deltas(events + [e]) == if e.Delta? then Deltas(events) + e.text else Deltas(events)
  {
    assert (events + [e])[..|events|] == events;
  }

  /** What one pull does to a live stream. */
  lemma {:induction false} PullOutcome(src: Source, s: Stream)
    requires s.started && !s.done && s.pending == [] && WithinLimit(s.text) && s.reader.bytes <= MAX_RESPONSE_BYTES
    requires s.finish.Some? ==> s.reader.sawFinish
    ensures var e := Pull(src, s);
            && e.event.Some? && e.stream.started && (e.stream.finish.Some? ==> e.stream.reader.sawFinish)
            && match e.event.value {
                 case Delta(t) =>
                   && !e.stream.done && e.stream.pending == [] && e.stream.text == s.text + t && WithinLimit(e.stream.text)
                   && s.reader.bytes < e.stream.reader.bytes <= MAX_RESPONSE_BYTES
                 case TextDone(t) =>
                   && e.stream.done && t == s.text && e.stream.text == s.text && e.stream.finish.Some?
                   && e.stream.pending == [Completed(e.stream.finish.value, s.text, e.stream.usage)]
                 case Failed(t, _) => e.stream.done && e.stream.pending == [] && s.text <= t
                 case _ => false
               }
    decreases Budget(s.reader)
  {
    ReadOnSpends(src, s.reader);
    PullTurnSpends(src, s);
    var e := PullTurn(src, s);
    if e.event.None? {
      PullOutcome(src, e.stream);
    }
  }

  lemma NextKeepsConsistent(src: Source, run: Run)
    requires Consistent(run)
    ensures var e := NextEvent(src, run.stream);
            Consistent(Run(e.stream, if e.event.Some? then run.events + [e.event.value] else run.events))
  {
    var s, events := run.stream, run.events;
    var e := NextEvent(src, s);
    if s.pending == [] && s.started && !s.done {
      PullOutcome(src, s);
    }
    if e.event.Some? {
      DeltasAppend(events, e.event.value);
      var longer := events + [e.event.value];
      assert longer[..|longer| - 1] == events;
      if s.pending != [] {
        assert longer[..|longer| - 2] == events[..|events| - 1];
      }
    }
  }

  lemma {:induction false} CallsConsistent(src: Source, n: nat)
    ensures Consistent(Calls(src, n))
  {
    if n > 0 {
      CallsConsistent(src, n - 1);
      NextKeepsConsistent(src, Calls(src, n - 1));
    }
  }

  // ----- The grammar

  /** A prefix of `created delta* (output_text.done completed | failed)` with honest texts. */
  predicate Grammatical(events: seq<Event>) {
    || events == []
    || CreatedThenDeltas(events)
    || (CreatedThenDeltas(events[..|events| - 1]) && events[|events| - 1] == TextDone(Deltas(events)))
    || EndsCompleted(events)
    || EndsFailed(events)
  }

  /** Whatever the backend sends and whenever the watcher aborts, the events emitted so far obey
      the grammar. */
  lemma EveryPrefixIsGrammatical(src: Source, n: nat)
    ensures Grammatical(Calls(src, n).events)
  {
    CallsConsistent(src, n);
  }

  predicate Terminal(e: Event) { e.Completed? || e.Failed? }

  predicate Ended(run: Run) { run.stream.done && run.stream.pending == [] }

  /** How many more calls can still emit something. */
  function Remaining(s: Stream): nat {
    if s.done then |s.pending|
    else (if s.started then 0 else 1) + Budget(s.reader) + 2
  }

  lemma NextMakesProgress(src: Source, run: Run)
    requires Consistent(run) && !Ended(run)
    ensures NextEvent(src, run.stream).event.Some?
    ensures Remaining(NextEvent(src, run.stream).stream) < Remaining(run.stream)
  {
    var s := run.stream;
    if s.pending == [] && s.started {
      PullOutcome(src, s);
    }
  }

  lemma {:induction false} RemainingFalls(src: Source, n: nat)
    ensures Ended(Calls(src, n)) || Remaining(Calls(src, n).stream) + n <= Remaining(OPENED)
  {
    if n > 0 {
      RemainingFalls(src, n - 1);
      CallsConsistent(src, n - 1);
      if !Ended(Calls(src, n - 1)) {
        NextMakesProgress(src, Calls(src, n - 1));
      }
    }
  }

  /** The number of calls after which every stream has ended. */
  const CALLS_TO_END: nat := MAX_RESPONSE_BYTES + 5

  lemma OneTerminal(events: seq<Event>)
    requires EndsCompleted(events) || EndsFailed(events)
    ensures forall i :: 0 <= i < |events| ==> (Terminal(events[i]) <==> i == |events| - 1)
  {
    var k := if EndsCompleted(events) then |events| - 2 else |events| - 1;
    forall i | 0 <= i < |events|
      ensures Terminal(events[i]) <==> i == |events| - 1
    {
      if i < k {
        assert events[i] == events[..k][i];
      }
    }
  }

  /** Every stream ends: after a bounded number of calls it has emitted exactly one terminal
      event, as its last, and emits nothing more; even if the backend never closes. */
  lemma EveryStreamEnds(src: Source, n: nat)
    requires n >= CALLS_TO_END
    ensures Ended(Calls(src, n)) && NextEvent(src, Calls(src, n).stream).event.None?
    ensures var events := Calls(src, n).events;
            && ((EndsCompleted(events) && Calls(src, n).stream.reader.sawFinish) || EndsFailed(events))
            && forall i :: 0 <= i < |events| ==> (Terminal(events[i]) <==> i == |events| - 1)
  {
    RemainingFalls(src, n);
    CallsConsistent(src, n);
    OneTerminal(Calls(src, n).events);
  }
}
