/** The bounded reader of a generation stream (c3r/adapters/providers.py:256-367). The backend
    is an arbitrary infinite source of reads; decoded JSON is a value, its text is not modelled. */
module GenerationStream {
  import opened Schema
  import opened Unicode

  const MAX_RESPONSE_BYTES: nat := 65_536
  const MAX_LINE_BYTES: nat := 16_384

  datatype Json =
    | JNull | JBool(on: bool) | JInt(value: int) | JFloat(nonzero: bool)
    | JString(text: Text) | JArray(items: seq<Json>) | JObject(members: map<string, Json>)

  /** One line: its length in bytes and what the bytes are. */
  datatype Body = NotData | DoneMarker | NotJson | Data(json: Json)

  /** A read gives a line, `size` 0 at the end of the stream, or fails with an OSError. */
  datatype Read = Line(size: nat, body: Body) | IoError

  /** What the reads give, and whether the watcher's `abort` arrived before read `p`. */
  datatype Source = Source(read: nat -> Read, abortedBy: nat -> bool)

  datatype Finish = StopReason | LengthReason

  datatype Usage = Usage(inputTokens: nat, outputTokens: nat)

  datatype Chunk = Chunk(content: Text, finish: Option<Finish>, usage: Option<Usage>)

  // ----- Validation of one event (lines 297-348); `None` is a raised error

  function Get(members: map<string, Json>, key: string): Json {
    if key in members then members[key] else JNull
  }

  predicate Truthy(j: Json) {
    match j
    case JNull => false
    case JBool(on) => on
    case JInt(n) => n != 0
    case JFloat(nonzero) => nonzero
    case JString(t) => t != []
    case JArray(items) => items != []
    case JObject(members) => members != map[]
  }

  function ParseUsage(j: Json): Option<Option<Usage>> {
    match j
    case JNull => Some(None)
    case JObject(m) =>
      var i, o := Get(m, "prompt_tokens"), Get(m, "completion_tokens");
      if i.JInt? && i.value >= 0 && o.JInt? && o.value >= 0 then Some(Some(Usage(i.value, o.value))) else None
    case _ => None
  }

  const STOP_TEXT: Text := [0x73, 0x74, 0x6F, 0x70]
  const LENGTH_TEXT: Text := [0x6C, 0x65, 0x6E, 0x67, 0x74, 0x68]

  function ParseFinish(j: Json): Option<Option<Finish>> {
    match j
    case JNull => Some(None)
    case JString(t) => if t == STOP_TEXT then Some(Some(StopReason)) else if t == LENGTH_TEXT then Some(Some(LengthReason)) else None
    case _ => None
  }

  function ParseChoice(j: Json, usage: Option<Usage>): Option<Chunk> {
    if !j.JObject? then None
    else
      var delta := Get(j.members, "delta");
      if !delta.JObject? || Truthy(Get(delta.members, "tool_calls")) || Truthy(Get(delta.members, "function_call")) then None
      else
        var content := if "content" in delta.members then delta.members["content"] else JString([]);
        var finish := ParseFinish(Get(j.members, "finish_reason"));
        if !content.JString? || finish.None? then None else Some(Chunk(content.text, finish.value, usage))
  }

  function ParseEvent(j: Json): Option<Chunk> {
    if !j.JObject? then None
    else
      var usage, choices := ParseUsage(Get(j.members, "usage")), Get(j.members, "choices");
      if usage.None? || !choices.JArray? || |choices.items| > 1 then None
      else if choices.items == [] then (if usage.value.None? then None else Some(Chunk([], None, usage.value)))
      else ParseChoice(choices.items[0], usage.value)
  }

  // ----- The reader

  datatype Reader = Reader(finished: bool, sawFinish: bool, bytes: nat, position: nat)

  const FRESH: Reader := Reader(false, false, 0, 0)

  datatype Next = Yielded(chunk: Chunk) | Stopped | Raised

  datatype Turn = Turn(reader: Reader, next: Option<Next>)

  function Closed(r: Reader): Reader { r.(finished := true) }

  /** One turn of the loop; `next` is `None` when the loop goes on. */
  function ReadTurn(src: Source, r: Reader): Turn {
    var line, r1 := src.read(r.position), r.(position := r.position + 1);
    if line.IoError? || line.size == 0 || line.size > MAX_LINE_BYTES then Turn(Closed(r1), Some(Raised))
    else
      var r2 := r1.(bytes := r.bytes + line.size);
      if r2.bytes > MAX_RESPONSE_BYTES then Turn(Closed(r2), Some(Raised))
      else
        match line.body
        case NotData => Turn(r2, None)
        case DoneMarker => Turn(Closed(r2), Some(if r2.sawFinish then Stopped else Raised))
        case NotJson => Turn(Closed(r2), Some(Raised))
        case Data(json) =>
          match ParseEvent(json)
          case None => Turn(Closed(r2), Some(Raised))
          case Some(chunk) => Turn(r2.(sawFinish := r2.sawFinish || chunk.finish.Some?), Some(Yielded(chunk)))
  }

  function Budget(r: Reader): nat {
    if r.bytes <= MAX_RESPONSE_BYTES then MAX_RESPONSE_BYTES - r.bytes + 1 else 0
  }

  datatype Step = Step(reader: Reader, next: Next)

  /** The loop from reader state `r`. */
  function ReadOn(src: Source, r: Reader): Step
    decreases Budget(r)
  {
    var t := ReadTurn(src, r);
    if t.next.Some? then Step(t.reader, t.next.value) else ReadOn(src, t.reader)
  }

  /** `TextGenerationStream.__next__`. */
  function NextOf(src: Source, r: Reader): Step {
    if r.finished || src.abortedBy(r.position) then Step(Closed(r), Stopped) else ReadOn(src, r)
  }

  class TextGenerationStream {
    const src: Source
    var finished: bool
    var sawFinish: bool
    var bytes: nat
    var position: nat

    function State(): Reader
      reads this
    {
      Reader(finished, sawFinish, bytes, position)
    }

    constructor (src: Source)
      ensures this.src == src && State() == FRESH
    {
      this.src := src;
      finished, sawFinish, bytes, position := false, false, 0, 0;
    }

    /** `__next__`: the watcher may have called `Abort` in between. */
    method Next() returns (next: Next)
      modifies this
      ensures Step(State(), next) == NextOf(src, old(State()))
    {
      if finished || src.abortedBy(position) {
        finished := true;
        return Stopped;
      }
      while true
        invariant ReadOn(src, State()) == ReadOn(src, old(State()))
        decreases Budget(State())
      {
        var line := src.read(position);
        position := position + 1;
        if line.IoError? || line.size == 0 || line.size > MAX_LINE_BYTES {
          finished := true;
          return Raised;
        }
        bytes := bytes + line.size;
        if bytes > MAX_RESPONSE_BYTES {
          finished := true;
          return Raised;
        }
        match line.body {
          case NotData =>
          case DoneMarker =>
            finished := true;
            return if sawFinish then Stopped else Raised;
          case NotJson =>
            finished := true;
            return Raised;
          case Data(json) =>
            var chunk := ParseEvent(json);
            if chunk.None? {
              finished := true;
              return Raised;
            }
            if chunk.value.finish.Some? {
              sawFinish := true;
            }
            return Yielded(chunk.value);
        }
      }
    }

    /** `abort` and `close`, as far as later calls can tell. */
    method Abort()
      modifies this
      ensures State() == Closed(old(State()))
    {
      finished := true;
    }
  }

  /** A chunk costs at least one byte of the budget, which it never exceeds; anything else
      closes the reader. */
  lemma {:induction false} ReadOnSpends(src: Source, r: Reader)
    ensures var s := ReadOn(src, r);
            && (s.next.Yielded? ==>
                  && r.bytes < s.reader.bytes <= MAX_RESPONSE_BYTES
                  && s.reader.finished == r.finished
                  && (s.next.chunk.finish.Some? ==> s.reader.sawFinish))
            && (!s.next.Yielded? ==> s.reader.finished)
            && (r.sawFinish ==> s.reader.sawFinish)
    decreases Budget(r)
  {
    var t := ReadTurn(src, r);
    if t.next.None? {
      ReadOnSpends(src, t.reader);
    }
  }
}
