/**
 * Pay-per-output streaming: the SDK server prints chunks as event-stream frames,
 * the gateway turns them back from a connection that may be cut into reads anywhere.
 */
module Streaming {
  import opened Common
  import opened Decimal
  import opened Json
  import opened SseFrames

  /** What the gateway hands on per chunk; a price override is never negative. */
  datatype UpstreamChunk = UpstreamChunk(text: string, priceAtomic: Option<nat>, meta: Option<Json>)

  /** How the chunk sequence ended. */
  datatype Outcome =
    | Done
    | ErrorFrame(data: Option<string>)
    | Truncated
    | ReadFault(msg: string)
    | ConnectionError(msg: string)
    | HttpError(status: int)

  datatype Decoded = Decoded(chunks: seq<UpstreamChunk>, outcome: Outcome)

  /** One turn of the read loop: text arrived, the body ended, the client aborted, or the read threw. */
  datatype Read = Data(text: string) | End | Aborted | Fault(msg: string)

  datatype Connection =
    | Unreachable(msg: string)
    | AbortedConnect
    | BadStatus(status: int)
    | NoBody
    | Body(turns: seq<Read>)

  // ----- one chunk -----

  function MetaOf(fields: map<string, Json>): Option<Json> {
    match Field(fields, "meta")
    case Some(JObject(m)) => Some(JObject(m))
    case Some(JArray(a)) => Some(JArray(a))
    case _ => None
  }

  function PriceOf(fields: map<string, Json>): Option<nat> {
    match Field(fields, "priceAtomic")
    case Some(JString(s)) => if s != "" && AllDigits(s) then Some(Value(s)) else None
    case _ => None
  }

  function DecodeChunk(codec: Codec, data: string): UpstreamChunk {
    match codec.parse(data)
    case None => UpstreamChunk(data, None, None)
    case Some(JObject(fields)) =>
      var text := match Field(fields, "text")
        case Some(JString(s)) => s
        case _ => codec.stringify(JObject(fields));
      UpstreamChunk(text, PriceOf(fields), MetaOf(fields))
    case Some(JArray(items)) => UpstreamChunk(codec.stringify(JArray(items)), None, None)
    case Some(j) => UpstreamChunk(StringOf(j), None, None)
  }

  // ----- the whole stream, as its frames alone determine it -----

  function Interpret(codec: Codec, frames: seq<string>, ending: Outcome): Decoded {
    if frames == [] then Decoded([], ending) else
    var ev := EventOf(frames[0]);
    if ev.event == Some("done") then Decoded([], Done)
    else if ev.event == Some("error") then Decoded([], ErrorFrame(ev.data))
    else
      var rest := Interpret(codec, frames[1..], ending);
      if ev.event == Some("chunk") && ev.data.Some? && ev.data.value != "" then
        Decoded([DecodeChunk(codec, ev.data.value)] + rest.chunks, rest.outcome)
      else
        rest
  }

  /** All text read before the first turn that stops the loop. */
  function Text(turns: seq<Read>): string {
    if turns == [] || !turns[0].Data? then "" else turns[0].text + Text(turns[1..])
  }

  /** Whether the loop stopped quietly or because a read threw. */
  function Ending(turns: seq<Read>): Outcome {
    if turns == [] then Truncated
    else match turns[0]
      case Data(_) => Ending(turns[1..])
      case Fault(msg) => ReadFault(msg)
      case _ => Truncated
  }

  /** The reads matter only through the text they add up to and the way they stop. */
  function WholeStream(codec: Codec, conn: Connection): Decoded {
    match conn
    case Unreachable(msg) => Decoded([], ConnectionError(msg))
    case AbortedConnect => Decoded([], Truncated)
    case BadStatus(status) => Decoded([], HttpError(status))
    case NoBody => Decoded([], Truncated)
    case Body(turns) => Interpret(codec, Frames(Text(turns)), Ending(turns))
  }

  function Prepend(chunks: seq<UpstreamChunk>, d: Decoded): Decoded {
    Decoded(chunks + d.chunks, d.outcome)
  }

  /** What is still to be decoded when `buf` is buffered and `more` will be read. */
  function Ahead(codec: Codec, buf: string, more: string, ending: Outcome): Decoded {
    Interpret(codec, Frames(buf + more), ending)
  }

  lemma AheadStep(codec: Codec, buf: string, more: string, ending: Outcome)
    requires FindSep(buf) != -1
    ensures var ev := EventOf(buf[..FindSep(buf)]);
            var rest := Ahead(codec, buf[FindSep(buf) + 2..], more, ending);
            Ahead(codec, buf, more, ending) ==
              if ev.event == Some("done") then Decoded([], Done)
              else if ev.event == Some("error") then Decoded([], ErrorFrame(ev.data))
              else if ev.event == Some("chunk") && ev.data.Some? && ev.data.value != "" then
                Prepend([DecodeChunk(codec, ev.data.value)], rest)
              else rest
  {
    FramesUnfold(buf, more);
  }

  lemma PrependTwice(a: seq<UpstreamChunk>, b: seq<UpstreamChunk>, d: Decoded)
    ensures Prepend(a, Prepend(b, d)) == Prepend(a + b, d)
  {
    assert a + (b + d.chunks) == (a + b) + d.chunks;
  }

  lemma AheadRead(codec: Codec, buf: string, text: string, more: string, ending: Outcome)
    ensures Ahead(codec, buf, text + more, ending) == Ahead(codec, buf + text, more, ending)
  {
    assert buf + (text + more) == (buf + text) + more;
  }

  lemma AheadNothing(codec: Codec, buf: string, ending: Outcome)
    requires FindSep(buf) == -1
    ensures Ahead(codec, buf, "", ending) == Decoded([], ending)
  {
    assert buf + "" == buf;
  }

  lemma TurnUnfolds(turns: seq<Read>, i: nat)
    requires i <= |turns|
    ensures i == |turns| ==> Text(turns[i..]) == "" && Ending(turns[i..]) == Truncated
    ensures i < |turns| && turns[i].Data? ==>
      Text(turns[i..]) == turns[i].text + Text(turns[i + 1..]) && Ending(turns[i..]) == Ending(turns[i + 1..])
    ensures i < |turns| && !turns[i].Data? ==>
      Text(turns[i..]) == "" && Ending(turns[i..]) == if turns[i].Fault? then ReadFault(turns[i].msg) else Truncated
  {
    assert i < |turns| ==> turns[i..][1..] == turns[i + 1..];
  }

  lemma NothingRead(codec: Codec, turns: seq<Read>)
    ensures FindSep("") == -1
    ensures Prepend([], Ahead(codec, "", Text(turns[0..]), Ending(turns[0..]))) == WholeStream(codec, Body(turns))
  {
    assert turns[0..] == turns && "" + Text(turns) == Text(turns);
  }

  /** The gateway's buffering read loop: however the text was cut into reads, it decodes the whole stream. */
  method StreamUpstream(codec: Codec, conn: Connection) returns (r: Decoded)
    ensures r == WholeStream(codec, conn)
  {
    hide FindSep;
    hide Frames;
    hide Interpret;
    hide EventOf;
    hide DecodeChunk;
    hide Text;
    hide Ending;
    hide Ahead;
    match conn {
      case Unreachable(msg) => return Decoded([], ConnectionError(msg));
      case AbortedConnect => return Decoded([], Truncated);
      case BadStatus(status) => return Decoded([], HttpError(status));
      case NoBody => return Decoded([], Truncated);
      case Body(_) =>
    }
    var turns := conn.turns;
    var buf := "";
    var chunks: seq<UpstreamChunk> := [];
    var i := 0;
    ghost var whole := WholeStream(codec, conn);
    ghost var ending := Ending(turns);
    NothingRead(codec, turns);
    assert turns[0..] == turns;
    while i < |turns|
      invariant 0 <= i <= |turns|
      invariant FindSep(buf) == -1 && ending == Ending(turns[i..])
      invariant Prepend(chunks, Ahead(codec, buf, Text(turns[i..]), ending)) == whole
    {
      TurnUnfolds(turns, i);
      if !turns[i].Data? {
        AheadNothing(codec, buf, ending);
        return Decoded(chunks, if turns[i].Fault? then ReadFault(turns[i].msg) else Truncated);
      }
      ghost var more := Text(turns[i + 1..]);
      AheadRead(codec, buf, turns[i].text, more, ending);
      buf := buf + turns[i].text;
      i := i + 1;
      var sep := FindSep(buf);
      while sep != -1
        invariant sep == FindSep(buf)
        invariant Prepend(chunks, Ahead(codec, buf, more, ending)) == whole
        decreases |buf|
      {
        AheadStep(codec, buf, more, ending);
        var frame := buf[..sep];
        buf := buf[sep + 2..];
        var ev := ParseSseFrame(frame);
        if ev.event == Some("done") {
          return Decoded(chunks, Done);
        }
        if ev.event == Some("error") {
          return Decoded(chunks, ErrorFrame(ev.data));
        }
        if ev.event == Some("chunk") && ev.data.Some? && ev.data.value != "" {
          PrependTwice(chunks, [DecodeChunk(codec, ev.data.value)], Ahead(codec, buf, more, ending));
          chunks := chunks + [DecodeChunk(codec, ev.data.value)];
        }
        sep := FindSep(buf);
      }
    }
    TurnUnfolds(turns, i);
    AheadNothing(codec, buf, ending);
    r := Decoded(chunks, Truncated);
  }

  // ----- the SDK emitter -----

  /** What a tool handler yields; nothing stops it from yielding a negative price. */
  datatype ToolChunk = ToolChunk(text: string, priceAtomic: Option<int>, meta: Option<map<string, Json>>)

  function ChunkFields(c: ToolChunk): map<string, Json> {
    var text := map["text" := JString(c.text)];
    var price := match c.priceAtomic
      case None => map[]
      case Some(p) => map["priceAtomic" := JString(PrintInt(p))];
    var meta := match c.meta
      case None => map[]
      case Some(m) => map["meta" := JObject(m)];
    text + price + meta
  }

  function ChunkToSseData(codec: Codec, c: ToolChunk): string { codec.stringify(JObject(ChunkFields(c))) }

  function FailureData(codec: Codec, msg: string): string {
    codec.stringify(JObject(map["message" := JString(msg)]))
  }

  function LastFrame(codec: Codec, failure: Option<string>): string {
    match failure
    case None => FrameText("done", "{}")
    case Some(msg) => FrameText("error", FailureData(codec, msg))
  }

  /** One frame per chunk, then the terminal frame. */
  function EmittedFrames(codec: Codec, chunks: seq<ToolChunk>, failure: Option<string>): seq<string> {
    if chunks == [] then [LastFrame(codec, failure)]
    else [FrameText("chunk", ChunkToSseData(codec, chunks[0]))] + EmittedFrames(codec, chunks[1..], failure)
  }

  lemma EmitOne(out: string, frame: string, rest: seq<string>)
    ensures out + Unsplit([frame] + rest) == out + frame + "\n\n" + Unsplit(rest)
  {
    assert ([frame] + rest)[1..] == rest;
  }

  /** The handler yields `chunks` and then returns, or throws `failure`. */
  method EmitSse(codec: Codec, chunks: seq<ToolChunk>, failure: Option<string>) returns (out: string)
    ensures out == Unsplit(EmittedFrames(codec, chunks, failure))
  {
    out := "";
    ghost var all := Unsplit(EmittedFrames(codec, chunks, failure));
    assert chunks[0..] == chunks;
    for i := 0 to |chunks|
      invariant out + Unsplit(EmittedFrames(codec, chunks[i..], failure)) == all
    {
      assert chunks[i..][1..] == chunks[i + 1..];
      var frame := FrameText("chunk", ChunkToSseData(codec, chunks[i]));
      EmitOne(out, frame, EmittedFrames(codec, chunks[i + 1..], failure));
      out := out + frame + "\n\n";
    }
    var last := LastFrame(codec, failure);
    EmitOne(out, last, []);
    out := out + last + "\n\n";
  }

  // ----- round trip -----

  /** What the gateway makes of a yielded chunk: a negative price is lost, everything else survives. */
  function Delivered(c: ToolChunk): UpstreamChunk {
    UpstreamChunk(
      c.text,
      match c.priceAtomic { case None => None case Some(p) => if p < 0 then None else Some(p) },
      match c.meta { case None => None case Some(m) => Some(JObject(m)) })
  }

  function DeliveredAll(chunks: seq<ToolChunk>): seq<UpstreamChunk> {
    if chunks == [] then [] else [Delivered(chunks[0])] + DeliveredAll(chunks[1..])
  }

  function EndOf(codec: Codec, failure: Option<string>): Outcome {
    match failure
    case None => Done
    case Some(msg) => ErrorFrame(Some(FailureData(codec, msg)))
  }

  lemma PriceSurvives(c: ToolChunk)
    ensures PriceOf(ChunkFields(c)) == Delivered(c).priceAtomic
  {
    if c.priceAtomic.Some? {
      var p := c.priceAtomic.value;
      if p < 0 {
        assert PrintInt(p)[0] == '-';
      } else {
        ValueOfPrint(p);
      }
    }
  }

  /** A price of -1 goes out and none comes back. */
  lemma NegativePriceLost(codec: Codec)
    requires Sound(codec)
    ensures DecodeChunk(codec, ChunkToSseData(codec, ToolChunk("t", Some(-1), None))) == UpstreamChunk("t", None, None)
  {
    ChunkSurvives(codec, ToolChunk("t", Some(-1), None));
  }

  lemma ChunkSurvives(codec: Codec, c: ToolChunk)
    requires Sound(codec)
    ensures DecodeChunk(codec, ChunkToSseData(codec, c)) == Delivered(c)
  {
    assert codec.parse(ChunkToSseData(codec, c)) == Some(JObject(ChunkFields(c)));
    PriceSurvives(c);
  }

  lemma {:induction false} EmittedFramesClean(codec: Codec, chunks: seq<ToolChunk>, failure: Option<string>)
    requires Sound(codec)
    ensures forall f | f in EmittedFrames(codec, chunks, failure) :: Clean(f)
  {
    hide Clean;
    hide FrameText;
    hide ChunkFields;
    hide Sound;
    hide PlainName;
    NamesPlain();
    if chunks == [] {
      match failure {
        case None => PrintedFrameClean("done", "{}");
        case Some(msg) => PrintedJsonClean(codec, "error", JObject(map["message" := JString(msg)]));
      }
    } else {
      PrintedJsonClean(codec, "chunk", JObject(ChunkFields(chunks[0])));
      EmittedFramesClean(codec, chunks[1..], failure);
    }
  }

  lemma NamesPlain()
    ensures PlainName("chunk") && PlainName("done") && PlainName("error")
  {
  }

  lemma PrintedJsonClean(codec: Codec, event: string, j: Json)
    requires Sound(codec) && PlainName(event)
    ensures Clean(FrameText(event, codec.stringify(j)))
  {
    hide FrameText;
    hide PlainName;
    assert OneLine(codec.stringify(j));
    PrintedFrameClean(event, codec.stringify(j));
  }

  lemma ChunkFrameMeans(codec: Codec, c: ToolChunk, rest: seq<string>, ending: Outcome)
    requires Sound(codec)
    ensures Interpret(codec, [FrameText("chunk", ChunkToSseData(codec, c))] + rest, ending)
         == Prepend([Delivered(c)], Interpret(codec, rest, ending))
  {
    hide FrameText;
    hide EventOf;
    hide DecodeChunk;
    hide Delivered;
    hide ChunkFields;
    var frame := FrameText("chunk", ChunkToSseData(codec, c));
    PrintedFrameReadsBack("chunk", ChunkToSseData(codec, c));
    ChunkSurvives(codec, c);
    assert ([frame] + rest)[1..] == rest;
  }

  lemma LastFrameMeans(codec: Codec, failure: Option<string>, ending: Outcome)
    requires Sound(codec)
    ensures Interpret(codec, [LastFrame(codec, failure)], ending) == Decoded([], EndOf(codec, failure))
  {
    hide FrameText;
    hide EventOf;
    hide DecodeChunk;
    match failure {
      case None => PrintedFrameReadsBack("done", "{}");
      case Some(msg) => PrintedFrameReadsBack("error", FailureData(codec, msg));
    }
  }

  lemma {:induction false} EmittedFramesMean(codec: Codec, chunks: seq<ToolChunk>, failure: Option<string>, ending: Outcome)
    requires Sound(codec)
    ensures Interpret(codec, EmittedFrames(codec, chunks, failure), ending)
         == Decoded(DeliveredAll(chunks), EndOf(codec, failure))
  {
    if chunks == [] {
      LastFrameMeans(codec, failure, ending);
    } else {
      ChunkFrameMeans(codec, chunks[0], EmittedFrames(codec, chunks[1..], failure), ending);
      EmittedFramesMean(codec, chunks[1..], failure, ending);
    }
  }

  /** Printing a stream and reading it back, under any fragmentation, loses only negative prices. */
  lemma StreamRoundTrip(codec: Codec, chunks: seq<ToolChunk>, failure: Option<string>, conn: Connection)
    requires Sound(codec)
    requires conn.Body? && Text(conn.turns) == Unsplit(EmittedFrames(codec, chunks, failure))
    ensures WholeStream(codec, conn) == Decoded(DeliveredAll(chunks), EndOf(codec, failure))
  {
    EmittedFramesClean(codec, chunks, failure);
    FramesOfUnsplit(EmittedFrames(codec, chunks, failure));
    EmittedFramesMean(codec, chunks, failure, Ending(conn.turns));
  }

  lemma {:induction false} InterpretPrefix(codec: Codec, some: seq<string>, all: seq<string>, e: Outcome, ending: Outcome)
    requires some <= all
    ensures Interpret(codec, some, e).chunks <= Interpret(codec, all, ending).chunks
    ensures Interpret(codec, some, e).outcome != e ==> Interpret(codec, some, e) == Interpret(codec, all, ending)
  {
    if some != [] {
      assert some[0] == all[0] && some[1..] <= all[1..];
      InterpretPrefix(codec, some[1..], all[1..], e, ending);
    }
  }

  /**
   * A connection that stops early yields a prefix of the chunks of the whole stream:
   * nothing is invented, altered or reordered, so what is metered was really delivered.
   */
  lemma TruncationYieldsPrefix(codec: Codec, cut: seq<Read>, whole: seq<Read>)
    requires Text(cut) <= Text(whole)
    ensures WholeStream(codec, Body(cut)).chunks <= WholeStream(codec, Body(whole)).chunks
    ensures WholeStream(codec, Body(cut)).outcome == Done ==> WholeStream(codec, Body(cut)) == WholeStream(codec, Body(whole))
  {
    hide Frames;
    hide Interpret;
    hide Text;
    hide Ending;
    var more := Text(whole)[|Text(cut)|..];
    assert Text(whole) == Text(cut) + more;
    FramesGrow(Text(cut), more);
    EndingNotDone(cut);
    InterpretPrefix(codec, Frames(Text(cut)), Frames(Text(whole)), Ending(cut), Ending(whole));
  }

  lemma {:induction false} EndingNotDone(turns: seq<Read>)
    ensures Ending(turns).Truncated? || Ending(turns).ReadFault?
  {
    if turns != [] && turns[0].Data? {
      EndingNotDone(turns[1..]);
    }
  }

  // ----- what a frame and a connection mean, spelled out -----

  /** What the gateway hands on for data that parses to an object. */
  ghost predicate ObjectMeans(codec: Codec, fields: map<string, Json>, c: UpstreamChunk) {
    && c.text == (if "text" in fields && fields["text"].JString? then fields["text"].s else codec.stringify(JObject(fields)))
    && (forall n: nat :: c.priceAtomic == Some(n) ==>
          "priceAtomic" in fields && fields["priceAtomic"].JString?
          && fields["priceAtomic"].s != "" && AllDigits(fields["priceAtomic"].s) && Value(fields["priceAtomic"].s) == n)
    && (c.priceAtomic.None? ==>
          forall digits: string :: digits != "" && AllDigits(digits) ==>
            !("priceAtomic" in fields && fields["priceAtomic"] == JString(digits)))
    && c.meta == if "meta" in fields && (fields["meta"].JObject? || fields["meta"].JArray?) then Some(fields["meta"]) else None
  }

  /** What the gateway hands on for the data of a chunk frame: data that is no object becomes text. */
  ghost predicate ChunkMeans(codec: Codec, data: string, c: UpstreamChunk) {
    var parsed := codec.parse(data);
    if parsed.Some? && parsed.value.JObject? then ObjectMeans(codec, parsed.value.fields, c)
    else
      && c.priceAtomic.None? && c.meta.None?
      && (parsed == None ==> c.text == data)
      && (parsed == Some(JNull) ==> c.text == "null")
      && (parsed == Some(JBool(true)) ==> c.text == "true")
      && (parsed == Some(JBool(false)) ==> c.text == "false")
      && (forall n: int :: parsed == Some(JNumber(Whole(n))) ==> c.text == PrintInt(n))
      && (forall t: string :: parsed == Some(JString(t)) ==> c.text == t)
      && (forall items: seq<Json> :: parsed == Some(JArray(items)) ==> c.text == codec.stringify(JArray(items)))
  }

  lemma DecodedMeans(codec: Codec, data: string)
    ensures ChunkMeans(codec, data, DecodeChunk(codec, data))
  {
  }

  /** What the first of a stream's frames does to the whole, when `rest` is what the other frames decode to. */
  ghost predicate FrameMeans(codec: Codec, event: string, data: string, rest: Decoded, whole: Decoded) {
    if event == "done" then whole == Decoded([], Done)
    else if event == "error" then whole == Decoded([], ErrorFrame(Some(data)))
    else if event == "chunk" && data != "" then
      whole.chunks != [] && whole == Prepend([whole.chunks[0]], rest) && ChunkMeans(codec, data, whole.chunks[0])
    else whole == rest
  }

  lemma InterpretFirst(codec: Codec, event: string, data: string, rest: seq<string>, ending: Outcome)
    requires PlainName(event) && OneLine(data)
    ensures FrameMeans(codec, event, data, Interpret(codec, rest, ending), Interpret(codec, [FrameText(event, data)] + rest, ending))
  {
    hide FrameText, EventOf, DecodeChunk, ChunkMeans, PlainName;
    var frame := FrameText(event, data);
    PrintedFrameReadsBack(event, data);
    DecodedMeans(codec, data);
    assert ([frame] + rest)[1..] == rest;
  }

  /**
   * The frame a stream starts with, as its bytes: `done` and `error` end it, a chunk with data is delivered, and
   * anything else is passed over. `later` is the same stream without that frame.
   */
  lemma FirstFrame(codec: Codec, event: string, data: string, turns: seq<Read>, later: seq<Read>)
    requires PlainName(event) && OneLine(data)
    requires Text(turns) == "event: " + event + "\ndata: " + data + "\n\n" + Text(later) && Ending(turns) == Ending(later)
    ensures FrameMeans(codec, event, data, WholeStream(codec, Body(later)), WholeStream(codec, Body(turns)))
  {
    hide Interpret, FrameMeans, Text, Ending, Clean, PlainName, Frames;
    var frame := FrameText(event, data);
    PrintedFrameClean(event, data);
    FramesBehind(frame, Text(later));
    assert Text(turns) == frame + "\n\n" + Text(later);
    InterpretFirst(codec, event, data, Frames(Text(later)), Ending(later));
  }

  lemma FramesBehind(frame: string, rest: string)
    requires Clean(frame)
    ensures Frames(frame + "\n\n" + rest) == [frame] + Frames(rest)
  {
    hide Clean;
    FirstSepAfterFrame(frame, rest);
    var s := frame + "\n\n" + rest;
    assert s[..|frame|] == frame && s[|frame| + 2..] == rest;
  }

  /** Only the turns before the first that is no data count, and that turn says how the stream ended. */
  lemma {:induction false} StopsAtFirst(turns: seq<Read>, k: nat)
    requires k <= |turns| && (forall i | 0 <= i < k :: turns[i].Data?) && (k < |turns| ==> !turns[k].Data?)
    ensures Text(turns) == Text(turns[..k])
    ensures Ending(turns) == if k < |turns| && turns[k].Fault? then ReadFault(turns[k].msg) else Truncated
  {
    if k > 0 {
      StopsAtFirst(turns[1..], k - 1);
      assert turns[..k][1..] == turns[1..][..k - 1];
    }
  }

  /** Nothing is read where there is no body, and a stream without a frame has no chunk. */
  lemma NoStream(codec: Codec, msg: string, status: int, stop: Read)
    requires !stop.Data?
    ensures WholeStream(codec, Unreachable(msg)) == Decoded([], ConnectionError(msg))
    ensures WholeStream(codec, BadStatus(status)) == Decoded([], HttpError(status))
    ensures WholeStream(codec, AbortedConnect) == WholeStream(codec, NoBody) == Decoded([], Truncated)
    ensures WholeStream(codec, Body([stop])) == Decoded([], if stop.Fault? then ReadFault(stop.msg) else Truncated)
  {
  }

  /** The fields a yielded chunk is sent with. */
  predicate FieldsMean(c: ToolChunk, fields: map<string, Json>) {
    && fields.Keys == {"text"} + (if c.priceAtomic.Some? then {"priceAtomic"} else {}) + (if c.meta.Some? then {"meta"} else {})
    && fields["text"] == JString(c.text)
    && (c.priceAtomic.Some? ==> fields["priceAtomic"] == JString(PrintInt(c.priceAtomic.value)))
    && (c.meta.Some? ==> fields["meta"] == JObject(c.meta.value))
  }

  /** The bytes of an emitted stream: its first chunk in front of the rest, and the frame it closes with. */
  lemma EmittedBytes(codec: Codec, c: ToolChunk, more: seq<ToolChunk>, failure: Option<string>, msg: string)
    returns (fields: map<string, Json>)
    ensures FieldsMean(c, fields)
    ensures Unsplit(EmittedFrames(codec, [c] + more, failure))
         == "event: chunk\ndata: " + codec.stringify(JObject(fields)) + "\n\n" + Unsplit(EmittedFrames(codec, more, failure))
    ensures Unsplit(EmittedFrames(codec, [], None)) == "event: done\ndata: {}\n\n"
    ensures Unsplit(EmittedFrames(codec, [], Some(msg)))
         == "event: error\ndata: " + codec.stringify(JObject(map["message" := JString(msg)])) + "\n\n"
  {
    fields := ChunkFields(c);
    FieldsMeanIt(c);
    EmittedCons(codec, c, more, failure);
    EmittedLast(codec, None);
    EmittedLast(codec, Some(msg));
    hide Unsplit, EmittedFrames, ChunkFields;
    assert "event: " + "chunk" + "\ndata: " == "event: chunk\ndata: ";
    assert "event: " + "done" + "\ndata: " + "{}" + "\n\n" == "event: done\ndata: {}\n\n";
    assert "event: " + "error" + "\ndata: " == "event: error\ndata: ";
  }

  lemma FieldsMeanIt(c: ToolChunk)
    ensures FieldsMean(c, ChunkFields(c))
  {
  }

  lemma EmittedCons(codec: Codec, c: ToolChunk, more: seq<ToolChunk>, failure: Option<string>)
    ensures Unsplit(EmittedFrames(codec, [c] + more, failure))
         == "event: " + "chunk" + "\ndata: " + ChunkToSseData(codec, c) + "\n\n" + Unsplit(EmittedFrames(codec, more, failure))
  {
    hide ChunkToSseData;
    var rest := EmittedFrames(codec, more, failure);
    assert ([c] + more)[1..] == more;
    var frame := FrameText("chunk", ChunkToSseData(codec, c));
    assert ([frame] + rest)[1..] == rest;
  }

  lemma EmittedLast(codec: Codec, failure: Option<string>)
    ensures Unsplit(EmittedFrames(codec, [], failure)) == LastFrame(codec, failure) + "\n\n"
  {
    hide LastFrame;
    assert [LastFrame(codec, failure)][1..] == [];
  }
}
