/**
 * The event-stream text format (WHATWG HTML Living Standard, sections 9.2.5 and 9.2.6),
 * in the LF-separated subset the gateway reads: cutting a stream into frames and reading one frame.
 */
module SseFrames {
  import opened Common

  // ----- cutting a text at blank lines -----

  predicate SepAt(s: string, k: int) { 0 <= k && k + 1 < |s| && s[k] == '\n' && s[k + 1] == '\n' }

  /** `s.indexOf("\n\n", from)`. */
  function FindSepFrom(s: string, from: nat): (i: int)
    ensures i == -1 || (from <= i && SepAt(s, i))
    ensures forall k | from <= k && (i == -1 || k < i) :: !SepAt(s, k)
    decreases |s| - from
  {
    if from + 1 >= |s| then -1 else if SepAt(s, from) then from else FindSepFrom(s, from + 1)
  }

  /** `s.indexOf("\n\n")`. */
  function FindSep(s: string): (i: int)
    ensures i == -1 || SepAt(s, i)
    ensures forall k | 0 <= k && (i == -1 || k < i) :: !SepAt(s, k)
  {
    FindSepFrom(s, 0)
  }

  /** The complete frames of a text: it is split at leftmost blank lines; what follows the last one is no frame. */
  function Frames(s: string): seq<string> {
    var i := FindSep(s);
    if i == -1 then [] else [s[..i]] + Frames(s[i + 2..])
  }

  function Unfinished(s: string): string {
    var i := FindSep(s);
    if i == -1 then s else Unfinished(s[i + 2..])
  }

  function Unsplit(frames: seq<string>): string {
    if frames == [] then "" else frames[0] + "\n\n" + Unsplit(frames[1..])
  }

  /** A text that can be a frame: the blank line that ends it is the first one. */
  predicate Clean(frame: string) { forall k | 0 <= k < |frame| :: !SepAt(frame + "\n", k) }

  lemma FindSepUnique(s: string, i: int)
    requires SepAt(s, i) && forall k | 0 <= k < i :: !SepAt(s, k)
    ensures FindSep(s) == i
  {
  }

  /** More text never moves a separator that was already there. */
  lemma FindSepStable(s: string, more: string)
    requires FindSep(s) != -1
    ensures FindSep(s + more) == FindSep(s)
  {
    var i := FindSep(s);
    forall k | 0 <= k < i ensures !SepAt(s + more, k) {
      assert !SepAt(s, k);
    }
    assert SepAt(s + more, i);
    FindSepUnique(s + more, i);
  }

  lemma FramesUnfold(s: string, more: string)
    requires FindSep(s) != -1
    ensures Frames(s + more) == [s[..FindSep(s)]] + Frames(s[FindSep(s) + 2..] + more)
  {
    var i := FindSep(s);
    FindSepStable(s, more);
    assert (s + more)[..i] == s[..i];
    assert (s + more)[i + 2..] == s[i + 2..] + more;
  }

  /** Reading further only ever adds frames. */
  lemma {:induction false} FramesGrow(s: string, more: string)
    ensures Frames(s) <= Frames(s + more)
    decreases |s|
  {
    if FindSep(s) != -1 {
      FramesUnfold(s, more);
      FramesGrow(s[FindSep(s) + 2..], more);
    }
  }

  lemma CutAtSep(s: string, i: nat)
    requires SepAt(s, i)
    ensures s == s[..i] + "\n\n" + s[i + 2..]
  {
    assert s[i..i + 2] == "\n\n";
  }

  lemma UnsplitCons(frame: string, frames: seq<string>, end: string)
    ensures Unsplit([frame] + frames) + end == frame + "\n\n" + (Unsplit(frames) + end)
  {
    assert ([frame] + frames)[1..] == frames;
  }

  /** Splitting loses nothing. */
  lemma {:induction false} FramesPartition(s: string)
    ensures Unsplit(Frames(s)) + Unfinished(s) == s
    ensures FindSep(Unfinished(s)) == -1
    decreases |s|
  {
    var i := FindSep(s);
    if i == -1 {
      assert Frames(s) == [] && Unfinished(s) == s;
    } else {
      var f, rest := s[..i], s[i + 2..];
      FramesPartition(rest);
      CutAtSep(s, i);
      UnsplitCons(f, Frames(rest), Unfinished(rest));
    }
  }

  lemma PrefixBeforeSepClean(s: string)
    requires FindSep(s) != -1
    ensures Clean(s[..FindSep(s)])
  {
    var f := s[..FindSep(s)];
    forall k | 0 <= k < |f| ensures !SepAt(f + "\n", k) {
      assert !SepAt(s, k);
    }
  }

  /** Every frame splitting yields is clean, so it was cut at the leftmost blank line. */
  lemma {:induction false} FramesClean(s: string)
    ensures forall f | f in Frames(s) :: Clean(f)
    decreases |s|
  {
    if FindSep(s) != -1 {
      PrefixBeforeSepClean(s);
      FramesClean(s[FindSep(s) + 2..]);
    }
  }

  lemma FirstSepAfterFrame(frame: string, rest: string)
    requires Clean(frame)
    ensures FindSep(frame + "\n\n" + rest) == |frame|
  {
    var s := frame + "\n\n" + rest;
    forall k | 0 <= k < |frame| ensures !SepAt(s, k) {
      assert !SepAt(frame + "\n", k);
    }
    FindSepUnique(s, |frame|);
  }

  /** Clean frames come back exactly as they were written. */
  lemma {:induction false} FramesOfUnsplit(frames: seq<string>)
    requires forall f | f in frames :: Clean(f)
    ensures Frames(Unsplit(frames)) == frames
  {
    if frames != [] {
      var rest := Unsplit(frames[1..]);
      var s := Unsplit(frames);
      FirstSepAfterFrame(frames[0], rest);
      assert s == frames[0] + "\n\n" + rest;
      assert s[..|frames[0]|] == frames[0] && s[|frames[0]| + 2..] == rest;
      FramesOfUnsplit(frames[1..]);
      assert frames == [frames[0]] + frames[1..];
    }
  }

  // ----- reading one frame -----

  datatype SseEvent = SseEvent(event: Option<string>, data: Option<string>)

  function FindLf(s: string): (i: nat)
    ensures i <= |s| && (i < |s| ==> s[i] == '\n') && forall k | 0 <= k < i :: s[k] != '\n'
  {
    if s == "" || s[0] == '\n' then 0 else 1 + FindLf(s[1..])
  }

  /** `frame.split("\n")`: never empty. */
  function Lines(s: string): (lines: seq<string>)
    ensures lines != []
    decreases |s|
  {
    var i := FindLf(s);
    if i == |s| then [s] else [s[..i]] + Lines(s[i + 1..])
  }

  function StripCr(line: string): string {
    if line != "" && line[|line| - 1] == '\r' then line[..|line| - 1] else line
  }

  function StripSpace(s: string): string {
    if s != "" && s[0] == ' ' then s[1..] else s
  }

  /** ECMAScript white space and line terminators. */
  predicate IsTrimmed(c: char) {
    || c in "\t\n\r \U{B}\U{C}\U{A0}\U{1680}\U{2028}\U{2029}\U{202F}\U{205F}\U{3000}\U{FEFF}"
    || '\U{2000}' <= c <= '\U{200A}'
  }

  function TrimStart(s: string): string { if s != "" && IsTrimmed(s[0]) then TrimStart(s[1..]) else s }

  function TrimEnd(s: string): string {
    if s != "" && IsTrimmed(s[|s| - 1]) then TrimEnd(s[..|s| - 1]) else s
  }

  function Trim(s: string): string { TrimEnd(TrimStart(s)) }

  predicate IsEventLine(line: string) { StartsWith(line, "event:") }

  predicate IsDataLine(line: string) { StartsWith(line, "data:") }

  /** The last `event:` line names the event. */
  function EventName(lines: seq<string>): Option<string> {
    if lines == [] then None else
    var line := StripCr(lines[|lines| - 1]);
    if IsEventLine(line) then Some(Trim(line[6..])) else EventName(lines[..|lines| - 1])
  }

  /** The payloads of the `data:` lines, in order. */
  function DataLines(lines: seq<string>): seq<string> {
    if lines == [] then [] else
    var line := StripCr(lines[|lines| - 1]);
    DataLines(lines[..|lines| - 1]) + (if IsDataLine(line) then [StripSpace(line[5..])] else [])
  }

  /** `lines.join("\n")`. */
  function JoinLines(lines: seq<string>): string {
    if lines == [] then ""
    else if |lines| == 1 then lines[0]
    else lines[0] + "\n" + JoinLines(lines[1..])
  }

  function EventOf(frame: string): SseEvent {
    var data := DataLines(Lines(frame));
    SseEvent(EventName(Lines(frame)), if data == [] then None else Some(JoinLines(data)))
  }

  method ParseSseFrame(frame: string) returns (ev: SseEvent)
    ensures ev == EventOf(frame)
  {
    hide Lines, DataLines, EventName, JoinLines, StripCr, StripSpace, Trim;
    NoLinesMean();
    var event: Option<string> := None;
    var dataLines: seq<string> := [];
    var lines := Lines(frame);
    for i := 0 to |lines|
      invariant event == EventName(lines[..i])
      invariant dataLines == DataLines(lines[..i])
    {
      assert lines[..i + 1] == lines[..i] + [lines[i]];
      DataSnoc(lines[..i], lines[i]);
      EventOrData(StripCr(lines[i]));
      var line := StripCr(lines[i]);
      if StartsWith(line, "event:") {
        event := Some(Trim(line[6..]));
      } else if StartsWith(line, "data:") {
        dataLines := dataLines + [StripSpace(line[5..])];
      }
    }
    assert lines[..|lines|] == lines;
    ev := SseEvent(event, if |dataLines| > 0 then Some(JoinLines(dataLines)) else None);
  }

  // ----- writing one frame -----

  /** A frame as both servers print it, without its terminating blank line. */
  function FrameText(event: string, data: string): string { "event: " + event + "\ndata: " + data }

  predicate PlainName(event: string) {
    && (forall i | 0 <= i < |event| :: event[i] != '\n')
    && event != "" && !IsTrimmed(event[0]) && !IsTrimmed(event[|event| - 1])
  }

  lemma PrintedFrameClean(event: string, data: string)
    requires PlainName(event) && forall i | 0 <= i < |data| :: data[i] != '\n'
    ensures Clean(FrameText(event, data))
  {
    var f := FrameText(event, data);
    var e := "event: " + event;
    assert f == e + "\ndata: " + data;
    forall k | 0 <= k < |f| ensures !SepAt(f + "\n", k) {
      if k < |e| {
        assert f[k] != '\n';
      } else if k == |e| {
        assert f[k + 1] == 'd';
      } else if k < |e| + 7 {
        assert f[k] == "\ndata: "[k - |e|];
      } else {
        assert f[k] == data[k - |e| - 7];
      }
    }
  }

  lemma LinesOfPrinted(event: string, data: string)
    requires PlainName(event) && forall i | 0 <= i < |data| :: data[i] != '\n'
    ensures Lines(FrameText(event, data)) == ["event: " + event, "data: " + data]
  {
    var a, b := "event: " + event, "data: " + data;
    var f := FrameText(event, data);
    assert f == a + "\n" + b;
    assert forall i | 0 <= i < |a| :: a[i] != '\n';
    assert forall i | 0 <= i < |a| :: f[i] == a[i];
    assert f[|a|] == '\n';
    assert FindLf(f) == |a|;
    assert f[..|a|] == a && f[|a| + 1..] == b;
    assert forall i | 0 <= i < |b| :: b[i] != '\n';
    assert FindLf(b) == |b|;
  }

  lemma TrimPlain(event: string)
    requires PlainName(event)
    ensures Trim(" " + event) == event
  {
    assert (" " + event)[1..] == event;
    assert TrimStart(event) == event;
  }

  /** What is printed on one line is read back unchanged. */
  lemma PrintedFrameReadsBack(event: string, data: string)
    requires PlainName(event) && forall i | 0 <= i < |data| :: data[i] != '\n' && data[i] != '\r'
    ensures EventOf(FrameText(event, data)) == SseEvent(Some(event), Some(data))
  {
    var a, b := "event: " + event, "data: " + data;
    LinesOfPrinted(event, data);
    assert a[|a| - 1] == event[|event| - 1];
    assert StripCr(a) == a;
    assert b[|b| - 1] != '\r';
    assert StripCr(b) == b;
    assert IsEventLine(a) && a[6..] == " " + event;
    TrimPlain(event);
    assert b[0] == 'd' && a[0] == 'e' && "event:"[0] == 'e' && "data:"[0] == 'd';
    assert !IsEventLine(b) && !IsDataLine(a) && IsDataLine(b) && b[5..] == " " + data;
    assert StripSpace(b[5..]) == data;
    assert [a, b][..1] == [a] && [a][..0] == [];
    assert EventName([a]) == Some(event);
    assert DataLines([a]) == [];
    assert DataLines([a, b]) == [data];
  }

  // ----- a frame means its lines, one after the other -----

  predicate LfFree(lines: seq<string>) { forall i | 0 <= i < |lines| :: '\n' !in lines[i] }

  lemma LineEnds(line: string, rest: string)
    requires '\n' !in line && (rest == "" || rest[0] == '\n')
    ensures FindLf(line + rest) == |line|
  {
    var s := line + rest;
    assert forall k | 0 <= k < |line| :: s[k] == line[k] && s[k] in line;
    assert rest != "" ==> s[|line|] == '\n';
  }

  /** The first LF ends the first line. */
  lemma FirstLine(line: string, rest: string)
    requires '\n' !in line
    ensures Lines(line + "\n" + rest) == [line] + Lines(rest)
    ensures Lines(line) == [line]
  {
    hide FindLf;
    var s := line + "\n" + rest;
    LineEnds(line, "\n" + rest);
    assert s == line + ("\n" + rest);
    assert s[..|line|] == line && s[|line| + 1..] == rest;
    LineEnds(line, "");
    assert line + "" == line;
  }

  lemma JoinCons(lines: seq<string>)
    requires |lines| > 1
    ensures JoinLines(lines) == lines[0] + "\n" + JoinLines(lines[1..])
  {
  }

  lemma {:induction false} LinesOfJoined(lines: seq<string>)
    requires lines != [] && LfFree(lines)
    ensures Lines(JoinLines(lines)) == lines
  {
    hide Lines, FindLf;
    FirstLine(lines[0], if |lines| == 1 then "" else JoinLines(lines[1..]));
    if |lines| == 1 {
      assert JoinLines(lines) == lines[0];
    } else {
      LinesOfJoined(lines[1..]);
      JoinCons(lines);
    }
    assert lines == [lines[0]] + lines[1..];
  }

  lemma {:induction false} JoinMore(lines: seq<string>, last: string)
    requires lines != []
    ensures JoinLines(lines + [last]) == JoinLines(lines) + "\n" + last
  {
    assert (lines + [last])[1..] == lines[1..] + [last];
    if |lines| > 1 {
      JoinMore(lines[1..], last);
      Reassociate(lines[0] + "\n", JoinLines(lines[1..]), "\n" + last);
      Reassociate(lines[0] + "\n" + JoinLines(lines[1..]), "\n", last);
      Reassociate(JoinLines(lines[1..]), "\n", last);
    }
  }

  /** Data with one more payload behind it. */
  function MoreData(data: Option<string>, payload: string): Option<string> {
    if data.None? then Some(payload) else Some(data.value + "\n" + payload)
  }

  lemma NoLinesMean()
    ensures DataLines([]) == [] && EventName([]) == None
  {
  }

  lemma EventOrData(line: string)
    ensures !(IsEventLine(line) && IsDataLine(line))
  {
    if IsEventLine(line) {
      EventIsNotData(line);
    }
  }

  lemma DataSnoc(lines: seq<string>, line: string)
    ensures DataLines(lines + [line])
         == DataLines(lines) + (if IsDataLine(StripCr(line)) then [StripSpace(StripCr(line)[5..])] else [])
    ensures EventName(lines + [line])
         == if IsEventLine(StripCr(line)) then Some(Trim(StripCr(line)[6..])) else EventName(lines)
  {
    assert (lines + [line])[..|lines|] == lines;
  }

  /** What the lines of a frame say so far; before the first of them, nothing. */
  function EventSoFar(lines: seq<string>): SseEvent {
    if lines == [] then SseEvent(None, None) else EventOf(JoinLines(lines))
  }

  /** What one more line does to a frame, in terms of the lines the frame already has. */
  lemma EventSnoc(lines: seq<string>, line: string)
    requires LfFree(lines) && '\n' !in line
    ensures var before, after, bare := EventSoFar(lines), EventOf(JoinLines(lines + [line])), StripCr(line);
            && after.event == (if IsEventLine(bare) then Some(Trim(bare[6..])) else before.event)
            && after.data == if IsDataLine(bare) then MoreData(before.data, StripSpace(bare[5..])) else before.data
  {
    hide Lines, DataLines, EventName, StripCr, StripSpace, Trim, JoinLines;
    NoLinesMean();
    if lines != [] {
      LinesOfJoined(lines);
    }
    assert LfFree(lines + [line]);
    LinesOfJoined(lines + [line]);
    DataSnoc(lines, line);
    var bare := StripCr(line);
    if IsDataLine(bare) {
      JoinSnoc(DataLines(lines), StripSpace(bare[5..]));
    } else {
      assert DataLines(lines + [line]) == DataLines(lines);
    }
  }

  lemma JoinSnoc(data: seq<string>, payload: string)
    ensures JoinLines(data + [payload]) == if data == [] then payload else JoinLines(data) + "\n" + payload
  {
    if data == [] {
      assert data + [payload] == [payload];
    } else {
      JoinMore(data, payload);
    }
  }

  /**
   * What one more line does to a frame, whether or not it ends in CR: `event:` names the event anew, `data:` adds its
   * payload behind a LF, less one leading space, and any other line changes nothing.
   */
  lemma OneMoreLine(lines: seq<string>, line: string, cr: bool)
    requires LfFree(lines) && '\n' !in line && (line == "" || line[|line| - 1] != '\r')
    ensures var before, after := EventSoFar(lines), EventOf(JoinLines(lines + [if cr then line + "\r" else line]));
            && (forall x: string :: line == "event:" + x ==> after == SseEvent(Some(Trim(x)), before.data))
            && (forall x: string :: line == "data:" + x ==>
                  after == SseEvent(before.event, MoreData(before.data, if x != "" && x[0] == ' ' then x[1..] else x)))
            && (!("event:" <= line) && !("data:" <= line) ==> after == before)
  {
    hide EventOf, EventSoFar, MoreData, JoinLines, Trim, StripCr;
    var raw := if cr then line + "\r" else line;
    StripsCr(line, cr);
    assert '\n' !in raw;
    EventSnoc(lines, raw);
    forall x: string | line == "event:" + x ensures line[6..] == x && IsEventLine(line) && !IsDataLine(line) {
      EventIsNotData(line);
    }
    forall x: string | line == "data:" + x ensures line[5..] == x && IsDataLine(line) && !IsEventLine(line) {
      EventOrData(line);
    }
  }

  lemma StripsCr(line: string, cr: bool)
    requires line == "" || line[|line| - 1] != '\r'
    ensures StripCr(if cr then line + "\r" else line) == line
  {
    if cr {
      assert (line + "\r")[..|line|] == line;
    }
  }

  lemma EventIsNotData(line: string)
    requires "event:" <= line
    ensures !("data:" <= line)
  {
    assert line[0] == "event:"[0] && "event:"[0] == 'e' && "data:"[0] == 'd';
  }

  /** Trimming removes white space at both ends and nothing else. */
  lemma TrimMeans(s: string) returns (pre: string, post: string)
    ensures s == pre + Trim(s) + post
    ensures (forall c | c in pre :: IsTrimmed(c)) && (forall c | c in post :: IsTrimmed(c))
    ensures Trim(s) != "" ==> !IsTrimmed(Trim(s)[0]) && !IsTrimmed(Trim(s)[|Trim(s)| - 1])
  {
    hide IsTrimmed;
    pre := TrimStartMeans(s);
    post := TrimEndMeans(TrimStart(s));
    assert s == pre + (Trim(s) + post);
  }

  lemma {:induction false} TrimStartMeans(s: string) returns (pre: string)
    ensures s == pre + TrimStart(s) && (forall c | c in pre :: IsTrimmed(c))
    ensures TrimStart(s) != "" ==> !IsTrimmed(TrimStart(s)[0])
  {
    hide IsTrimmed;
    if s != "" && IsTrimmed(s[0]) {
      var more := TrimStartMeans(s[1..]);
      pre := [s[0]] + more;
      assert s == [s[0]] + s[1..];
    } else {
      pre := "";
    }
  }

  lemma {:induction false} TrimEndMeans(s: string) returns (post: string)
    ensures s == TrimEnd(s) + post && (forall c | c in post :: IsTrimmed(c))
    ensures TrimEnd(s) != "" ==> TrimEnd(s)[0] == s[0] && !IsTrimmed(TrimEnd(s)[|TrimEnd(s)| - 1])
  {
    hide IsTrimmed;
    if s != "" && IsTrimmed(s[|s| - 1]) {
      var less := TrimEndMeans(s[..|s| - 1]);
      post := less + [s[|s| - 1]];
      assert s == s[..|s| - 1] + [s[|s| - 1]];
    } else {
      post := "";
    }
  }
}
