/** What a response stream emits, determined by the reads of its backend: how far it gets, whether it
    completes or fails, and every event on the way. */
module StreamLaws {
  import opened Schema
  import opened Unicode
  import opened GenerationStream
  import opened ResponseEvents

  // ----- What the backend has sent before read `n`

  /** The chunk that read `k` carries, if any. */
  function ChunkAt(src: Source, k: nat): Option<Chunk> {
    match src.read(k)
    case Line(_, Data(json)) => ParseEvent(json)
    case _ => None
  }

  function BytesBefore(src: Source, n: nat): nat {
    if n == 0 then 0 else BytesBefore(src, n - 1) + match src.read(n - 1) case Line(size, _) => size case IoError => 0
  }

  function ContentAt(src: Source, k: nat): Text {
    if ChunkAt(src, k).Some? then ChunkAt(src, k).value.content else []
  }

  /** The contents sent, one after the other. */
  function TextBefore(src: Source, n: nat): Text {
    if n == 0 then [] else TextBefore(src, n - 1) + ContentAt(src, n - 1)
  }

  /** The last finish reason sent. */
  function FinishBefore(src: Source, n: nat): Option<Finish> {
    if n == 0 then None
    else if ChunkAt(src, n - 1).Some? && ChunkAt(src, n - 1).value.finish.Some? then ChunkAt(src, n - 1).value.finish
    else FinishBefore(src, n - 1)
  }

  /** The last usage sent. */
  function UsageBefore(src: Source, n: nat): Option<Usage> {
    if n == 0 then None
    else if ChunkAt(src, n - 1).Some? && ChunkAt(src, n - 1).value.usage.Some? then ChunkAt(src, n - 1).value.usage
    else UsageBefore(src, n - 1)
  }

  /** One delta for each chunk with text. */
  function DeltasBefore(src: Source, n: nat): seq<Event> {
    if n == 0 then []
    else if ContentAt(src, n - 1) == [] then DeltasBefore(src, n - 1)
    else DeltasBefore(src, n - 1) + [Delta(ContentAt(src, n - 1))]
  }

  // ----- What counts as an event

  predicate Absent(members: map<string, Json>, key: string) { key !in members || members[key].JNull? }

  /** The usage member is absent, or an object with two token counts that are not negative. */
  predicate SaysUsage(members: map<string, Json>, usage: Option<Usage>) {
    match usage
    case None => Absent(members, "usage")
    case Some(u) =>
      && "usage" in members && members["usage"].JObject?
      && var m := members["usage"].members;
      && "prompt_tokens" in m && m["prompt_tokens"] == JInt(u.inputTokens)
      && "completion_tokens" in m && m["completion_tokens"] == JInt(u.outputTokens)
  }

  predicate SaysFinish(members: map<string, Json>, finish: Option<Finish>) {
    match finish
    case None => Absent(members, "finish_reason")
    case Some(StopReason) => "finish_reason" in members && members["finish_reason"] == JString(['s' as int, 't' as int, 'o' as int, 'p' as int])
    case Some(LengthReason) =>
      "finish_reason" in members
      && members["finish_reason"] == JString(['l' as int, 'e' as int, 'n' as int, 'g' as int, 't' as int, 'h' as int])
  }

  predicate NoCall(members: map<string, Json>, key: string) { key in members ==> !Truthy(members[key]) }

  /** The delta calls no tool or function, and its content, if it has one, is the text. */
  predicate SaysContent(members: map<string, Json>, content: Text) {
    && "delta" in members && members["delta"].JObject?
    && var m := members["delta"].members;
    && NoCall(m, "tool_calls") && NoCall(m, "function_call")
    && if "content" in m then m["content"] == JString(content) else content == []
  }

  /** An event says a chunk: one choice with a delta, or no choice and a usage. */
  predicate Says(j: Json, c: Chunk) {
    && j.JObject? && SaysUsage(j.members, c.usage)
    && "choices" in j.members && j.members["choices"].JArray?
    && var choices := j.members["choices"].items;
    if choices == [] then c.usage.Some? && c.content == [] && c.finish.None?
    else
      && |choices| == 1 && choices[0].JObject?
      && SaysContent(choices[0].members, c.content) && SaysFinish(choices[0].members, c.finish)
  }

  lemma UsageSaid(members: map<string, Json>, usage: Option<Usage>)
    ensures ParseUsage(Get(members, "usage")) == Some(usage) <==> SaysUsage(members, usage)
  {
  }

  lemma FinishSaid(members: map<string, Json>, finish: Option<Finish>)
    ensures ParseFinish(Get(members, "finish_reason")) == Some(finish) <==> SaysFinish(members, finish)
  {
    assert STOP_TEXT[0] != LENGTH_TEXT[0];
  }

  lemma ChoiceSaid(j: Json, usage: Option<Usage>, c: Chunk)
    ensures ParseChoice(j, usage) == Some(c) <==> j.JObject? && c.usage == usage && SaysContent(j.members, c.content) && SaysFinish(j.members, c.finish)
  {
    if j.JObject? {
      FinishSaid(j.members, c.finish);
    }
  }

  /** A chunk is read exactly from the events that say it. */
  lemma ParsedExactlyWhen(j: Json, c: Chunk)
    ensures ParseEvent(j) == Some(c) <==> Says(j, c)
  {
    if j.JObject? {
      UsageSaid(j.members, c.usage);
      var choices := Get(j.members, "choices");
      if choices.JArray? && |choices.items| == 1 {
        ChoiceSaid(choices.items[0], c.usage, c);
      }
    }
  }

  // ----- How far the stream gets

  predicate GoodSize(src: Source, k: nat) {
    src.read(k).Line? && 1 <= src.read(k).size <= 16_384
  }

  /** Read `k` is a line of admissible length that is no data or a valid event. */
  predicate GoodLine(src: Source, k: nat) {
    GoodSize(src, k) && (src.read(k).body.NotData? || ChunkAt(src, k).Some?)
  }

  /** The watcher's abort is seen before read `k`: where a new call begins, at the start and after
      each chunk. */
  predicate AbortSeen(src: Source, k: nat) {
    src.abortedBy(k) && (k == 0 || ChunkAt(src, k - 1).Some?)
  }

  /** A text that can be encoded in at most 64 KiB. */
  predicate Fits(text: Text) { Encodable(text) && Utf8Length(text) <= 65_536 }

  /** The stream gets past read `k`: no abort, a good line, and no text after a finish reason. */
  predicate GetsPast(src: Source, k: nat) {
    !AbortSeen(src, k) && GoodLine(src, k) && (ContentAt(src, k) != [] ==> FinishBefore(src, k).None?)
  }

  /** The stream is still going before read `n`. */
  predicate GoesOn(src: Source, n: nat) {
    && (forall k :: 0 <= k < n ==> GetsPast(src, k))
    && BytesBefore(src, n) <= 65_536 && Fits(TextBefore(src, n))
  }

  /** It ends well at `n`: a finish reason was sent, and either the done marker is read within the
      limits, or an abort is seen. */
  predicate EndsWell(src: Source, n: nat) {
    && FinishBefore(src, n).Some?
    && (AbortSeen(src, n) || (GoodSize(src, n) && src.read(n).body == DoneMarker && BytesBefore(src, n + 1) <= 65_536))
  }

  predicate Completes(src: Source, n: nat) { GoesOn(src, n) && EndsWell(src, n) }

  predicate Breaks(src: Source, n: nat) { GoesOn(src, n) && !GoesOn(src, n + 1) && !EndsWell(src, n) }

  lemma {:induction false} BytesGrow(src: Source, m: nat, n: nat)
    requires m <= n
    ensures BytesBefore(src, m) <= BytesBefore(src, n)
  {
    if m < n {
      BytesGrow(src, m, n - 1);
    }
  }

  lemma {:induction false} TextGrows(src: Source, m: nat, n: nat)
    requires m <= n
    ensures TextBefore(src, m) <= TextBefore(src, n)
  {
    if m < n {
      TextGrows(src, m, n - 1);
    }
  }

  lemma LengthGrows(a: Text, b: Text)
    requires a <= b
    ensures Utf8Length(a) <= Utf8Length(b)
  {
    assert b == a + b[|a|..];
    Utf8LengthConcat(a, b[|a|..]);
  }

  lemma LimitShrinks(a: Text, b: Text)
    requires a <= b && Fits(b)
    ensures Fits(a)
  {
    LengthGrows(a, b);
  }

  /** A stream that is still going was going before. */
  lemma WasGoing(src: Source, m: nat, n: nat)
    requires m <= n && GoesOn(src, n)
    ensures GoesOn(src, m)
  {
    BytesGrow(src, m, n);
    TextGrows(src, m, n);
    LimitShrinks(TextBefore(src, m), TextBefore(src, n));
  }

  lemma WellMeansNotPast(src: Source, n: nat)
    requires EndsWell(src, n)
    ensures !GetsPast(src, n)
  {
  }

  lemma NotAfter(src: Source, m: nat, n: nat)
    requires (Completes(src, m) || Breaks(src, m)) && GoesOn(src, n)
    ensures n <= m
  {
    StopsThere(src, m);
    if m < n {
      WasGoing(src, m + 1, n);
    }
  }

  /** There is one place where a stream stops, and it ends well there or breaks. */
  lemma OneEnd(src: Source, m: nat, n: nat)
    requires (Completes(src, m) || Breaks(src, m)) && (Completes(src, n) || Breaks(src, n))
    ensures m == n
  {
    NotAfter(src, m, n);
    NotAfter(src, n, m);
  }

  lemma StopsThere(src: Source, n: nat)
    requires Completes(src, n) || Breaks(src, n)
    ensures GoesOn(src, n) && !GoesOn(src, n + 1)
  {
    if Completes(src, n) {
      WellMeansNotPast(src, n);
    }
  }

  // ----- The reader

  /** The reader stands before read `n` and has counted what it read. */
  predicate ReadsAt(src: Source, r: Reader, n: nat) {
    && r.position == n && !r.finished && r.bytes == BytesBefore(src, n) && r.bytes <= 65_536
    && r.sawFinish == FinishBefore(src, n).Some?
  }

  /** No data between `m` and `n`, and nothing wrong with it. */
  predicate Quiet(src: Source, m: nat, n: nat) {
    forall k :: m <= k < n ==> GoodSize(src, k) && src.read(k).body.NotData?
  }

  lemma {:induction false} QuietKeeps(src: Source, m: nat, n: nat)
    requires m <= n && Quiet(src, m, n)
    ensures TextBefore(src, n) == TextBefore(src, m) && FinishBefore(src, n) == FinishBefore(src, m)
    ensures UsageBefore(src, n) == UsageBefore(src, m) && DeltasBefore(src, n) == DeltasBefore(src, m)
  {
    if m < n {
      QuietKeeps(src, m, n - 1);
      assert src.read(n - 1).body.NotData?;
      assert ChunkAt(src, n - 1).None?;
    }
  }

  /** What a call of the reader finds: a chunk at `n`, the end of a finished stream there, or a line
      it cannot accept. */
  predicate Finds(src: Source, step: Step, n: nat) {
    match step.next
    case Yielded(chunk) =>
      GoodSize(src, n) && ChunkAt(src, n) == Some(chunk) && BytesBefore(src, n + 1) <= 65_536 && ReadsAt(src, step.reader, n + 1)
    case Stopped =>
      FinishBefore(src, n).Some? && GoodSize(src, n) && src.read(n).body == DoneMarker && BytesBefore(src, n + 1) <= 65_536
    case Raised =>
      !(GoodLine(src, n) && BytesBefore(src, n + 1) <= 65_536)
      && !(FinishBefore(src, n).Some? && GoodSize(src, n) && src.read(n).body == DoneMarker && BytesBefore(src, n + 1) <= 65_536)
  }

  lemma TurnFinds(src: Source, r: Reader, n: nat)
    requires ReadsAt(src, r, n)
    ensures var t := ReadTurn(src, r);
            if t.next.Some? then Finds(src, Step(t.reader, t.next.value), n)
            else GoodSize(src, n) && src.read(n).body.NotData? && ReadsAt(src, t.reader, n + 1)
  {
  }

  lemma {:induction false} ReadFinds(src: Source, r: Reader, n: nat) returns (m: nat)
    requires ReadsAt(src, r, n)
    ensures n <= m && Quiet(src, n, m) && BytesBefore(src, m) <= 65_536 && Finds(src, ReadOn(src, r), m)
    decreases Budget(r)
  {
    TurnFinds(src, r, n);
    var t := ReadTurn(src, r);
    if t.next.Some? {
      m := n;
    } else {
      m := ReadFinds(src, t.reader, n + 1);
    }
  }

  // ----- The stream

  /** A live stream between two calls: it stands before read `n`, still going, holding what was sent. */
  predicate Stands(src: Source, s: Stream, n: nat) {
    && s.started && !s.done && s.pending == []
    && ReadsAt(src, s.reader, n) && GoesOn(src, n) && (n == 0 || ChunkAt(src, n - 1).Some?)
    && s.text == TextBefore(src, n) && s.finish == FinishBefore(src, n) && s.usage == UsageBefore(src, n)
  }

  /** The report of a failure at `n`: what was received, with the text that broke the limit. */
  function Report(src: Source, n: nat): Event {
    if AbortSeen(src, n) || !GoodLine(src, n) || BytesBefore(src, n + 1) > 65_536 then Failed(TextBefore(src, n), UsageBefore(src, n))
    else if ContentAt(src, n) != [] && FinishBefore(src, n).Some? then Failed(TextBefore(src, n), UsageBefore(src, n + 1))
    else Failed(TextBefore(src, n + 1), UsageBefore(src, n + 1))
  }

  /** What one turn of the pulling loop does from read `n`. */
  predicate Turns(src: Source, e: Emission, n: nat, m: nat) {
    match e.event
    case None => n < m && Stands(src, e.stream, m) && DeltasBefore(src, m) == DeltasBefore(src, n)
    case Some(Delta(t)) => n < m && Stands(src, e.stream, m) && DeltasBefore(src, m) == DeltasBefore(src, n) + [Delta(t)]
    case Some(TextDone(t)) =>
      && Completes(src, m) && t == TextBefore(src, m) && e.stream.done && DeltasBefore(src, m) == DeltasBefore(src, n)
      && e.stream.pending == [Completed(FinishBefore(src, m).value, t, UsageBefore(src, m))]
    case Some(Failed(text, usage)) =>
      Breaks(src, m) && e.stream.done && e.stream.pending == [] && DeltasBefore(src, m) == DeltasBefore(src, n) && Failed(text, usage) == Report(src, m)
    case _ => false
  }

  lemma QuietGoesOn(src: Source, n: nat, m: nat)
    requires GoesOn(src, n) && !AbortSeen(src, n) && n <= m && Quiet(src, n, m) && BytesBefore(src, m) <= 65_536
    ensures GoesOn(src, m) && (n < m ==> !AbortSeen(src, m))
  {
    QuietKeeps(src, n, m);
    forall k | 0 <= k < m
      ensures GetsPast(src, k)
    {
      if k >= n {
        assert GoodSize(src, k) && src.read(k).body.NotData?;
        assert k > n ==> src.read(k - 1).body.NotData?;
      }
    }
    assert n < m ==> src.read(m - 1).body.NotData?;
  }

  lemma AbortTurns(src: Source, s: Stream, n: nat)
    requires Stands(src, s, n) && src.abortedBy(n)
    ensures Turns(src, PullTurn(src, s), n, n)
  {
    assert AbortSeen(src, n);
    assert !GetsPast(src, n);
  }

  lemma RaiseTurns(src: Source, s: Stream, n: nat, m: nat)
    requires Stands(src, s, n) && !src.abortedBy(n) && n <= m && Quiet(src, n, m) && BytesBefore(src, m) <= 65_536
    requires ReadOn(src, s.reader).next.Raised? && Finds(src, ReadOn(src, s.reader), m)
    ensures Turns(src, PullTurn(src, s), n, m)
  {
    QuietGoesOn(src, n, m);
    QuietKeeps(src, n, m);
    BrokenStops(src, m);
  }

  lemma BrokenStops(src: Source, m: nat)
    requires !(GoodLine(src, m) && BytesBefore(src, m + 1) <= 65_536)
    ensures !GoesOn(src, m + 1)
  {
    assert GoesOn(src, m + 1) ==> GetsPast(src, m);
  }

  lemma StopTurns(src: Source, s: Stream, n: nat, m: nat)
    requires Stands(src, s, n) && !src.abortedBy(n) && n <= m && Quiet(src, n, m) && BytesBefore(src, m) <= 65_536
    requires ReadOn(src, s.reader).next.Stopped? && Finds(src, ReadOn(src, s.reader), m)
    ensures Turns(src, PullTurn(src, s), n, m)
  {
    QuietGoesOn(src, n, m);
    QuietKeeps(src, n, m);
  }

  lemma GoesFurther(src: Source, m: nat)
    requires GoesOn(src, m) && !AbortSeen(src, m) && GoodSize(src, m) && ChunkAt(src, m).Some? && BytesBefore(src, m + 1) <= 65_536
    ensures GoesOn(src, m + 1) <==> (ContentAt(src, m) != [] ==> FinishBefore(src, m).None?) && Fits(TextBefore(src, m) + ContentAt(src, m))
  {
    assert GetsPast(src, m) <==> (ContentAt(src, m) != [] ==> FinishBefore(src, m).None?);
  }

  /** What a chunk at `m` adds. */
  lemma ChunkAdds(src: Source, m: nat, chunk: Chunk)
    requires ChunkAt(src, m) == Some(chunk)
    ensures TextBefore(src, m + 1) == TextBefore(src, m) + chunk.content
    ensures FinishBefore(src, m + 1) == if chunk.finish.Some? then chunk.finish else FinishBefore(src, m)
    ensures UsageBefore(src, m + 1) == if chunk.usage.Some? then chunk.usage else UsageBefore(src, m)
    ensures DeltasBefore(src, m + 1) == DeltasBefore(src, m) + if chunk.content == [] then [] else [Delta(chunk.content)]
  {
    if chunk.content == [] {
      assert DeltasBefore(src, m) + [] == DeltasBefore(src, m);
    }
  }

  /** What the pulling loop does with a chunk, from the stream that stood before it. */
  lemma ChunkTurn(src: Source, s: Stream, step: Step, chunk: Chunk)
    requires NextOf(src, s.reader) == step && step.next == Yielded(chunk)
    ensures var e, usage := PullTurn(src, s), if chunk.usage.Some? then chunk.usage else s.usage;
            var finish := if chunk.finish.Some? then chunk.finish else s.finish;
            var next := s.(reader := step.reader, usage := usage, finish := finish, text := s.text + chunk.content);
            if chunk.content == [] then e.event.None? && e.stream == next.(text := s.text)
            else if s.finish.Some? then e.event == Some(Failed(s.text, usage)) && e.stream.done && e.stream.pending == s.pending
            else if !Fits(s.text + chunk.content) then
              e.event == Some(Failed(s.text + chunk.content, usage)) && e.stream.done && e.stream.pending == s.pending
            else e.event == Some(Delta(chunk.content)) && e.stream == next
  {
  }

  /** The stream holds what was sent before read `m`. */
  predicate Holds(src: Source, s: Stream, m: nat) {
    && s.started && !s.done && s.pending == []
    && s.text == TextBefore(src, m) && s.finish == FinishBefore(src, m) && s.usage == UsageBefore(src, m)
  }

  lemma YieldGoes(src: Source, s: Stream, step: Step, chunk: Chunk, m: nat)
    requires Holds(src, s, m) && NextOf(src, s.reader) == step && step.next == Yielded(chunk) && ChunkAt(src, m) == Some(chunk)
    requires ReadsAt(src, step.reader, m + 1) && GoesOn(src, m + 1)
    ensures var e := PullTurn(src, s);
            && Stands(src, e.stream, m + 1)
            && e.event == if chunk.content == [] then None else Some(Delta(chunk.content))
  {
    ChunkTurn(src, s, step, chunk);
    ChunkAdds(src, m, chunk);
    assert GetsPast(src, m);
    assert s.text + [] == s.text;
  }

  lemma YieldBreaks(src: Source, s: Stream, step: Step, chunk: Chunk, m: nat)
    requires Holds(src, s, m) && NextOf(src, s.reader) == step && step.next == Yielded(chunk) && ChunkAt(src, m) == Some(chunk)
    requires GoesOn(src, m) && !AbortSeen(src, m) && GoodSize(src, m) && BytesBefore(src, m + 1) <= 65_536 && !GoesOn(src, m + 1)
    ensures var e := PullTurn(src, s);
            Breaks(src, m) && e.event == Some(Report(src, m)) && e.stream.done && e.stream.pending == []
  {
    ChunkTurn(src, s, step, chunk);
    ChunkAdds(src, m, chunk);
    GoesFurther(src, m);
    NotWell(src, m);
    ChunkReport(src, m, chunk);
    assert s.text + [] == s.text;
  }

  lemma YieldTurnsAt(src: Source, s: Stream, step: Step, chunk: Chunk, n: nat, m: nat) returns (to: nat)
    requires n <= m && Holds(src, s, m) && DeltasBefore(src, m) == DeltasBefore(src, n) && GoesOn(src, m) && !AbortSeen(src, m)
    requires NextOf(src, s.reader) == step && step.next == Yielded(chunk) && ChunkAt(src, m) == Some(chunk)
    requires GoodSize(src, m) && BytesBefore(src, m + 1) <= 65_536 && ReadsAt(src, step.reader, m + 1)
    ensures Turns(src, PullTurn(src, s), n, to)
  {
    if GoesOn(src, m + 1) {
      to := m + 1;
      YieldGoes(src, s, step, chunk, m);
      ChunkAdds(src, m, chunk);
      TurnsOn(src, PullTurn(src, s), chunk, n, m);
    } else {
      to := m;
      YieldBreaks(src, s, step, chunk, m);
      TurnsBroken(src, PullTurn(src, s), n, m);
    }
  }

  lemma YieldTurns(src: Source, s: Stream, n: nat, m: nat) returns (to: nat)
    requires Stands(src, s, n) && !src.abortedBy(n) && n <= m && Quiet(src, n, m) && BytesBefore(src, m) <= 65_536
    requires ReadOn(src, s.reader).next.Yielded? && Finds(src, ReadOn(src, s.reader), m)
    ensures Turns(src, PullTurn(src, s), n, to)
  {
    QuietGoesOn(src, n, m);
    HoldsLater(src, s, n, m);
    to := YieldTurnsAt(src, s, ReadOn(src, s.reader), ReadOn(src, s.reader).next.chunk, n, m);
  }

  lemma TurnsBroken(src: Source, e: Emission, n: nat, m: nat)
    requires DeltasBefore(src, m) == DeltasBefore(src, n) && Breaks(src, m)
    requires e.event == Some(Report(src, m)) && e.stream.done && e.stream.pending == []
    ensures Turns(src, e, n, m)
  {
  }

  lemma HoldsLater(src: Source, s: Stream, n: nat, m: nat)
    requires Stands(src, s, n) && n <= m && Quiet(src, n, m)
    ensures Holds(src, s, m) && DeltasBefore(src, m) == DeltasBefore(src, n)
  {
    QuietKeeps(src, n, m);
  }

  lemma TurnsOn(src: Source, e: Emission, chunk: Chunk, n: nat, m: nat)
    requires n <= m && DeltasBefore(src, m) == DeltasBefore(src, n) && Stands(src, e.stream, m + 1)
    requires DeltasBefore(src, m + 1) == DeltasBefore(src, m) + if chunk.content == [] then [] else [Delta(chunk.content)]
    requires e.event == if chunk.content == [] then None else Some(Delta(chunk.content))
    ensures Turns(src, e, n, m + 1)
  {
    assert DeltasBefore(src, m) + [] == DeltasBefore(src, m);
  }

  lemma NotWell(src: Source, m: nat)
    requires ChunkAt(src, m).Some? && !AbortSeen(src, m)
    ensures !EndsWell(src, m)
  {
  }

  lemma ChunkReport(src: Source, m: nat, chunk: Chunk)
    requires GoodSize(src, m) && ChunkAt(src, m) == Some(chunk) && !AbortSeen(src, m) && BytesBefore(src, m + 1) <= 65_536
    ensures Report(src, m) == if chunk.content != [] && FinishBefore(src, m).Some? then Failed(TextBefore(src, m), UsageBefore(src, m + 1))
                              else Failed(TextBefore(src, m + 1), UsageBefore(src, m + 1))
  {
  }

  lemma PullTurnTurns(src: Source, s: Stream, n: nat) returns (m: nat)
    requires Stands(src, s, n)
    ensures Turns(src, PullTurn(src, s), n, m)
  {
    if src.abortedBy(n) {
      AbortTurns(src, s, n);
      m := n;
    } else {
      m := ReadFinds(src, s.reader, n);
      match ReadOn(src, s.reader).next
      case Raised => RaiseTurns(src, s, n, m);
      case Stopped => StopTurns(src, s, n, m);
      case Yielded(_) => m := YieldTurns(src, s, n, m);
    }
  }

  lemma {:induction false} PullMeets(src: Source, s: Stream, n: nat) returns (m: nat)
    requires Stands(src, s, n)
    ensures Pull(src, s).event.Some? && Turns(src, Pull(src, s), n, m)
    decreases Budget(s.reader)
  {
    m := PullTurnTurns(src, s, n);
    PullTurnSpends(src, s);
    var e := PullTurn(src, s);
    if e.event.None? {
      m := PullMeets(src, e.stream, m);
    }
  }

  // ----- The whole run

  /** The last two events of a stream that completes at `n`. */
  function Ending(src: Source, n: nat): seq<Event>
    requires FinishBefore(src, n).Some?
  {
    [TextDone(TextBefore(src, n)), Completed(FinishBefore(src, n).value, TextBefore(src, n), UsageBefore(src, n))]
  }

  /** How a run stands: not begun, live before read `n`, or ended there with the events that the
      reads determine. */
  predicate Determined(src: Source, run: Run, n: nat) {
    var s, events := run.stream, run.events;
    if !s.started then s == OPENED && events == []
    else if !s.done then Stands(src, s, n) && events == [Created] + DeltasBefore(src, n)
    else if s.pending != [] then
      && Completes(src, n) && s.pending == Ending(src, n)[1..] && events == [Created] + DeltasBefore(src, n) + Ending(src, n)[..1]
    else
      || (Completes(src, n) && events == [Created] + DeltasBefore(src, n) + Ending(src, n))
      || (Breaks(src, n) && events == [Created] + DeltasBefore(src, n) + [Report(src, n)])
  }

  lemma StartStands(src: Source)
    ensures Stands(src, OPENED.(started := true), 0)
  {
  }

  lemma CallDetermines(src: Source, run: Run, n: nat) returns (m: nat)
    requires Determined(src, run, n)
    ensures var e := NextEvent(src, run.stream);
            Determined(src, Run(e.stream, if e.event.Some? then run.events + [e.event.value] else run.events), m)
  {
    var s, e := run.stream, NextEvent(src, run.stream);
    m := n;
    if s.pending != [] {
      var ending := Ending(src, n);
      assert ending[1..] == [ending[1]] && ending[..1] == [ending[0]] && ending == [ending[0]] + [ending[1]];
      assert run.events + [ending[1]] == [Created] + DeltasBefore(src, n) + ending;
    } else if !s.done {
      if !s.started {
        StartStands(src);
        m := 0;
        assert [Created] + [] == [Created];
      } else {
        m := PullMeets(src, s, n);
        PullEvents(src, run, n, m);
      }
    }
  }

  lemma PullEvents(src: Source, run: Run, n: nat, m: nat)
    requires run.stream.started && !run.stream.done && run.events == [Created] + DeltasBefore(src, n)
    requires Pull(src, run.stream).event.Some? && Turns(src, Pull(src, run.stream), n, m)
    ensures Determined(src, Run(Pull(src, run.stream).stream, run.events + [Pull(src, run.stream).event.value]), m)
  {
    PullKeepsStarted(src, run.stream);
    EventsDetermined(src, Pull(src, run.stream), run.events, n, m);
  }

  lemma DeltaDetermined(src: Source, s: Stream, events: seq<Event>, t: Text, n: nat, m: nat)
    requires events == [Created] + DeltasBefore(src, n) && Stands(src, s, m) && DeltasBefore(src, m) == DeltasBefore(src, n) + [Delta(t)]
    ensures Determined(src, Run(s, events + [Delta(t)]), m)
  {
    assert [Created] + (DeltasBefore(src, n) + [Delta(t)]) == [Created] + DeltasBefore(src, n) + [Delta(t)];
  }

  lemma DoneDetermined(src: Source, s: Stream, events: seq<Event>, t: Text, n: nat, m: nat)
    requires events == [Created] + DeltasBefore(src, n) && DeltasBefore(src, m) == DeltasBefore(src, n) && s.started && s.done
    requires Completes(src, m) && t == TextBefore(src, m) && s.pending == [Completed(FinishBefore(src, m).value, t, UsageBefore(src, m))]
    ensures Determined(src, Run(s, events + [TextDone(t)]), m)
  {
    assert Ending(src, m)[..1] == [TextDone(t)] && Ending(src, m)[1..] == s.pending;
  }

  lemma FailureDetermined(src: Source, s: Stream, events: seq<Event>, n: nat, m: nat)
    requires events == [Created] + DeltasBefore(src, n) && DeltasBefore(src, m) == DeltasBefore(src, n) && s.started && s.done && s.pending == []
    requires Breaks(src, m)
    ensures Determined(src, Run(s, events + [Report(src, m)]), m)
  {
  }

  lemma EventsDetermined(src: Source, e: Emission, events: seq<Event>, n: nat, m: nat)
    requires events == [Created] + DeltasBefore(src, n) && e.event.Some? && e.stream.started && Turns(src, e, n, m)
    ensures Determined(src, Run(e.stream, events + [e.event.value]), m)
  {
    match e.event.value
    case Delta(t) => DeltaDetermined(src, e.stream, events, t, n, m);
    case TextDone(t) => DoneDetermined(src, e.stream, events, t, n, m);
    case Failed(_, _) => FailureDetermined(src, e.stream, events, n, m);
    case _ =>
  }

  lemma {:induction false} PullKeepsStarted(src: Source, s: Stream)
    ensures Pull(src, s).stream.started == s.started
    decreases Budget(s.reader)
  {
    PullTurnSpends(src, s);
    if PullTurn(src, s).event.None? {
      PullKeepsStarted(src, PullTurn(src, s).stream);
    }
  }

  lemma {:induction false} CallsDetermined(src: Source, calls: nat) returns (n: nat)
    ensures Determined(src, Calls(src, calls), n)
  {
    n := 0;
    if calls > 0 {
      n := CallsDetermined(src, calls - 1);
      n := CallDetermines(src, Calls(src, calls - 1), n);
    }
  }

  /** Every stream ends at one read of its backend: it completes exactly when it ends well there, and
      the events are then those the reads determine: one delta for each content sent, in order, and
      either the whole text with the last finish reason and usage, or the report of what was
      received. */
  lemma EventsAreDetermined(src: Source, calls: nat) returns (n: nat)
    requires calls >= CALLS_TO_END
    ensures Completes(src, n) || Breaks(src, n)
    ensures Completes(src, n) ==> Calls(src, calls).events == [Created] + DeltasBefore(src, n) + Ending(src, n)
    ensures Breaks(src, n) ==> Calls(src, calls).events == [Created] + DeltasBefore(src, n) + [Report(src, n)]
  {
    n := CallsDetermined(src, calls);
    EveryStreamEnds(src, calls);
    if Completes(src, n) && Breaks(src, n) {
      assert false;
    }
  }

  /** A stream completes if and only if its reads reach a good end: every line before it is good and
      within both limits, no text follows a finish reason, one was sent, and the done marker is read
      or an abort seen there. */
  lemma CompletesExactlyWhen(src: Source, calls: nat)
    requires calls >= CALLS_TO_END
    ensures EndsCompleted(Calls(src, calls).events) <==> exists n: nat :: Completes(src, n)
  {
    var n := EventsAreDetermined(src, calls);
    var events := Calls(src, calls).events;
    if Breaks(src, n) {
      assert events[|events| - 1] == Report(src, n);
      if m: nat :| Completes(src, m) {
        OneEnd(src, m, n);
      }
    } else {
      EveryStreamEnds(src, calls);
      assert events[|events| - 1] == Ending(src, n)[1];
    }
  }

  /** The done marker is read at `n`, within both limits, after good lines only, with a finish reason
      sent and no text after it. */
  predicate ReachesDone(src: Source, n: nat) {
    && GoesOn(src, n) && FinishBefore(src, n).Some?
    && GoodSize(src, n) && src.read(n).body == DoneMarker && BytesBefore(src, n + 1) <= 65_536
  }

  lemma DoneMeans(src: Source, n: nat)
    requires !src.abortedBy(n)
    ensures Completes(src, n) <==> ReachesDone(src, n)
  {
  }

  /** Without an abort a stream completes if and only if its reads reach the done marker. */
  lemma UnabortedCompletesExactlyWhen(src: Source, calls: nat)
    requires calls >= CALLS_TO_END && forall p: nat :: !src.abortedBy(p)
    ensures EndsCompleted(Calls(src, calls).events) <==> exists n: nat :: ReachesDone(src, n)
  {
    CompletesExactlyWhen(src, calls);
    forall n: nat
      ensures Completes(src, n) <==> ReachesDone(src, n)
    {
      DoneMeans(src, n);
    }
  }
}
