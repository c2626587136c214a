/** The agent's event stream: the controller's frame writer (services/api/src/agent) and the storefront's
    chunked frame reader (apps/storefront/lib/agent-api.ts). */
module Sse {
  import opened Options
  import Texts

  /** JSON text as the platform prints and parses it, and the `type` field each frame names. */
  datatype Codec<!E> = Codec(kind: E -> string, stringify: E -> string, parse: string -> Option<E>)

  const BLANK: string := "\n\n"

  predicate IsTerminator(c: char) { c == '\n' || c == '\r' || c == '\U{2028}' || c == '\U{2029}' }

  predicate HasTerminator(s: string) { exists i :: 0 <= i < |s| && IsTerminator(s[i]) }

  // ---- Splitting at blank lines ----

  predicate BlankAt(s: string, i: nat) { i + 1 < |s| && s[i] == '\n' && s[i + 1] == '\n' }

  /** The first blank line at or after `from`, and |s| when there is none. */
  function FindBlank(s: string, from: nat): (i: nat)
    requires from <= |s|
    ensures from <= i <= |s| && (i < |s| ==> BlankAt(s, i))
    ensures forall j :: from <= j < i ==> !BlankAt(s, j)
    decreases |s| - from
  {
    if from == |s| || BlankAt(s, from) then from else FindBlank(s, from + 1)
  }

  /** `s.indexOf('\n\n')`, with |s| for -1. */
  function FirstBlank(s: string): (i: nat)
    ensures i <= |s| && (i < |s| ==> BlankAt(s, i)) && forall j :: 0 <= j < i ==> !BlankAt(s, j)
  {
    FindBlank(s, 0)
  }

  /** The complete frames of a stream. */
  function Frames(s: string): seq<string>
    decreases |s|
  {
    if FirstBlank(s) == |s| then [] else [s[..FirstBlank(s)]] + Frames(s[FirstBlank(s) + 2..])
  }

  /** What follows the last complete frame. */
  function Tail(s: string): string
    decreases |s|
  {
    if FirstBlank(s) == |s| then s else Tail(s[FirstBlank(s) + 2..])
  }

  lemma FirstBlankUnique(s: string, i: nat)
    requires BlankAt(s, i) && forall j :: 0 <= j < i ==> !BlankAt(s, j)
    ensures FirstBlank(s) == i
  {
  }

  lemma FirstBlankAppend(s: string, more: string)
    requires FirstBlank(s) < |s|
    ensures FirstBlank(s + more) == FirstBlank(s)
  {
    forall j | 0 <= j < FirstBlank(s) ensures !BlankAt(s + more, j) {
      assert !BlankAt(s, j);
    }
    FirstBlankUnique(s + more, FirstBlank(s));
  }

  /** Splitting a stream early loses nothing: the tail is all that later text can still complete. */
  lemma {:induction false} SplitAppend(s: string, more: string)
    ensures Frames(s + more) == Frames(s) + Frames(Tail(s) + more)
    ensures Tail(s + more) == Tail(Tail(s) + more)
    decreases |s|
  {
    var i := FirstBlank(s);
    if i < |s| {
      FirstBlankAppend(s, more);
      assert (s + more)[..i] == s[..i] && (s + more)[i + 2..] == s[i + 2..] + more;
      SplitAppend(s[i + 2..], more);
      assert Frames(s + more) == [s[..i]] + (Frames(s[i + 2..]) + Frames(Tail(s[i + 2..]) + more));
    }
  }

  // ---- One frame ----

  const DATA: string := "data: "

  function FirstTerminator(s: string): (i: nat)
    ensures i <= |s| && (i < |s| ==> IsTerminator(s[i]))
    ensures forall j :: 0 <= j < i ==> !IsTerminator(s[j])
  {
    if s == "" || IsTerminator(s[0]) then 0 else 1 + FirstTerminator(s[1..])
  }

  /** The first match of `/^data: (.*)$/m`: the rest of the first line that starts with the field name,
      lines ending at any of the four terminators of the regular expression language. */
  function DataLine(frame: string): Option<string>
    decreases |frame|
  {
    var line := frame[..FirstTerminator(frame)];
    if DATA <= line then Some(line[|DATA|..])
    else if FirstTerminator(frame) == |frame| then None
    else DataLine(frame[FirstTerminator(frame) + 1..])
  }

  function ParseFrame<E>(codec: Codec<E>, frame: string): Option<E> {
    var data := DataLine(frame);
    if data.None? || data.value == "" then None else codec.parse(data.value)
  }

  function Events<E>(codec: Codec<E>, frames: seq<string>): seq<E> {
    if frames == [] then [] else Yielded(codec, frames[0]) + Events(codec, frames[1..])
  }

  lemma {:induction false} EventsConcat<E>(codec: Codec<E>, a: seq<string>, b: seq<string>)
    ensures Events(codec, a + b) == Events(codec, a) + Events(codec, b)
  {
    if a == [] {
      assert a + b == b;
    } else {
      assert (a + b)[1..] == a[1..] + b;
      EventsConcat(codec, a[1..], b);
    }
  }

  // ---- The reader ----

  function Concat(chunks: seq<string>): string {
    if chunks == [] then "" else Concat(chunks[..|chunks| - 1]) + chunks[|chunks| - 1]
  }

  /** The events yielded so far and the buffer still hold everything the text read so far held. */
  ghost predicate Progress<E>(codec: Codec<E>, seen: string, events: seq<E>, buffer: string) {
    Events(codec, Frames(seen)) == events + Events(codec, Frames(buffer)) && Tail(seen) == Tail(buffer)
  }

  lemma Arrive<E>(codec: Codec<E>, seen: string, events: seq<E>, buffer: string, chunk: string)
    requires Progress(codec, seen, events, buffer) && FirstBlank(buffer) == |buffer|
    ensures Progress(codec, seen + chunk, events, buffer + chunk)
  {
    hide FirstBlank, BlankAt;
    assert Frames(buffer) == [] && Tail(seen) == buffer;
    SplitAppend(seen, chunk);
    EventsConcat(codec, Frames(seen), Frames(buffer + chunk));
  }

  lemma TakeFrame<E>(codec: Codec<E>, seen: string, events: seq<E>, buffer: string)
    requires Progress(codec, seen, events, buffer) && FirstBlank(buffer) < |buffer|
    ensures Progress(codec, seen, events + Yielded(codec, buffer[..FirstBlank(buffer)]),
      buffer[FirstBlank(buffer) + 2..])
  {
    hide FirstBlank, ParseFrame, Events, Frames, Tail;
    FramesStep(buffer);
    var frame, rest := buffer[..FirstBlank(buffer)], buffer[FirstBlank(buffer) + 2..];
    EventsCons(codec, frame, Frames(rest));
    Texts.Associative(events, Yielded(codec, frame), Events(codec, Frames(rest)));
  }

  function Yielded<E>(codec: Codec<E>, frame: string): seq<E> {
    var e := ParseFrame(codec, frame);
    if e.Some? then [e.value] else []
  }

  lemma FramesStep(s: string)
    requires FirstBlank(s) < |s|
    ensures FirstBlank(s) + 2 <= |s|
    ensures Frames(s) == [s[..FirstBlank(s)]] + Frames(s[FirstBlank(s) + 2..])
    ensures Tail(s) == Tail(s[FirstBlank(s) + 2..])
  {
  }

  lemma EventsCons<E>(codec: Codec<E>, frame: string, frames: seq<string>)
    ensures Events(codec, [frame] + frames) == Yielded(codec, frame) + Events(codec, frames)
  {
    assert ([frame] + frames)[1..] == frames;
  }

  /** `streamAgentMessage`'s reading loop over the decoded chunks. Whatever the chunk boundaries, it
      yields the events of the whole stream split at blank lines and withholds only the unfinished tail. */
  method Read<E>(codec: Codec<E>, chunks: seq<string>) returns (events: seq<E>, buffer: string)
    ensures events == Events(codec, Frames(Concat(chunks)))
    ensures buffer == Tail(Concat(chunks))
  {
    hide FindBlank, ParseFrame;
    events, buffer := [], "";
    for n := 0 to |chunks|
      invariant Progress(codec, Concat(chunks[..n]), events, buffer) && FirstBlank(buffer) == |buffer|
    {
      assert chunks[..n + 1][..n] == chunks[..n];
      Arrive(codec, Concat(chunks[..n]), events, buffer, chunks[n]);
      buffer := buffer + chunks[n];
      var separator := FirstBlank(buffer);
      while separator != |buffer|
        invariant separator == FirstBlank(buffer)
        invariant Progress(codec, Concat(chunks[..n + 1]), events, buffer)
        decreases |buffer|
      {
        TakeFrame(codec, Concat(chunks[..n + 1]), events, buffer);
        var frame := buffer[..separator];
        buffer := buffer[separator + 2..];
        var event := ParseFrame(codec, frame);
        assert events + [] == events;
        if event.Some? {
          events := events + [event.value];
        }
        separator := FirstBlank(buffer);
      }
    }
    assert chunks[..|chunks|] == chunks;
  }

  // ---- What the split means ----

  /** A text no blank line interrupts before its own terminating one. */
  predicate Whole(frame: string) { FirstBlank(frame + BLANK) == |frame| }

  function Joined(frames: seq<string>): string {
    if frames == [] then "" else frames[0] + BLANK + Joined(frames[1..])
  }

  lemma {:induction false} SplitOfJoined(frames: seq<string>, tail: string)
    requires (forall i :: 0 <= i < |frames| ==> Whole(frames[i])) && FirstBlank(tail) == |tail|
    ensures Frames(Joined(frames) + tail) == frames && Tail(Joined(frames) + tail) == tail
  {
    if frames != [] {
      hide FirstBlank;
      var s, rest := Joined(frames) + tail, Joined(frames[1..]) + tail;
      assert s == frames[0] + BLANK + rest;
      assert Whole(frames[0]);
      FirstBlankAppend(frames[0] + BLANK, rest);
      assert s[..|frames[0]|] == frames[0] && s[|frames[0]| + 2..] == rest;
      SplitOfJoined(frames[1..], tail);
      FramesStep(s);
    } else {
      assert Joined(frames) + tail == tail;
    }
  }

  /** The split is the one decomposition of the stream into whole frames and an unfinished tail. */
  lemma {:induction false} JoinedOfSplit(s: string)
    ensures Joined(Frames(s)) + Tail(s) == s && FirstBlank(Tail(s)) == |Tail(s)|
    ensures forall i :: 0 <= i < |Frames(s)| ==> Whole(Frames(s)[i])
    decreases |s|
  {
    var k := FirstBlank(s);
    if k < |s| {
      hide FirstBlank;
      BlankBetween(s);
      var rest := s[k + 2..];
      JoinedOfSplit(rest);
      FirstFrameWhole(s);
      JoinedCons(s[..k], Frames(rest));
      assert Frames(s) == [s[..k]] + Frames(rest);
      assert Joined(Frames(s)) + Tail(s) == s[..k] + BLANK + (Joined(Frames(rest)) + Tail(rest));
    }
  }

  lemma JoinedCons(frame: string, frames: seq<string>)
    ensures Joined([frame] + frames) == frame + BLANK + Joined(frames)
  {
    assert ([frame] + frames)[1..] == frames;
  }

  lemma BlankBetween(s: string)
    requires FirstBlank(s) < |s|
    ensures FirstBlank(s) + 2 <= |s| && s == s[..FirstBlank(s)] + BLANK + s[FirstBlank(s) + 2..]
  {
    assert BlankAt(s, FirstBlank(s));
  }

  lemma FirstFrameWhole(s: string)
    requires FirstBlank(s) < |s|
    ensures Whole(s[..FirstBlank(s)])
  {
    var k := FirstBlank(s);
    var head := s[..k + 2];
    assert s[..k] + BLANK == head;
    forall j | 0 <= j < k ensures !BlankAt(head, j) {
      assert !BlankAt(s, j);
    }
    FirstBlankUnique(head, k);
  }

  // ---- The writer ----

  /** `send`: one frame on the response. */
  function Printed<E>(codec: Codec<E>, e: E): string {
    "event: " + codec.kind(e) + "\n" + "data: " + codec.stringify(e)
  }

  function PrintedFrames<E>(codec: Codec<E>, events: seq<E>): (frames: seq<string>)
    ensures |frames| == |events|
  {
    seq(|events|, i requires 0 <= i < |events| => Printed(codec, events[i]))
  }

  /** The response of one turn: `send` appends a frame, and the turn ends with one terminal event. */
  class Response<E> {
    const codec: Codec<E>
    var body: string
    var ended: bool
    ghost var sent: seq<E>

    ghost predicate Valid() reads this { body == Joined(PrintedFrames(codec, sent)) }

    constructor (codec: Codec<E>)
      ensures Valid() && this.codec == codec && body == "" && sent == [] && !ended
    {
      this.codec := codec;
      body, ended, sent := "", false, [];
    }

    method Send(event: E)
      requires Valid() && !ended
      modifies this
      ensures Valid() && !ended && sent == old(sent) + [event]
    {
      JoinedAppend(PrintedFrames(codec, sent), Printed(codec, event));
      assert PrintedFrames(codec, sent + [event]) == PrintedFrames(codec, sent) + [Printed(codec, event)];
      body := body + "event: " + codec.kind(event) + "\n" + "data: " + codec.stringify(event) + "\n\n";
      sent := sent + [event];
    }

    /** `stream`: the turn's progress events, then `done` when it succeeded (`reply`), `error` when not. */
    method Stream(progress: seq<E>, reply: Option<E>, failure: E)
      requires Valid() && !ended && sent == []
      modifies this
      ensures Valid() && ended && sent == progress + [if reply.Some? then reply.value else failure]
    {
      for i := 0 to |progress|
        invariant Valid() && !ended && sent == progress[..i]
      {
        Send(progress[i]);
      }
      Send(if reply.Some? then reply.value else failure);
      ended := true;
    }
  }

  lemma {:induction false} JoinedAppend(frames: seq<string>, frame: string)
    ensures Joined(frames + [frame]) == Joined(frames) + (frame + BLANK)
  {
    if frames == [] {
      assert ([] + [frame])[1..] == [] && [frame] == [] + [frame];
    } else {
      assert (frames + [frame])[1..] == frames[1..] + [frame];
      JoinedAppend(frames[1..], frame);
    }
  }

  // ---- Print, then read ----

  /** What a JSON printer guarantees: parsing inverts printing, raw newlines are escaped, the text opens
      with a brace, and no proper prefix of an object's text is itself a JSON text. U+2028 and U+2029
      may appear raw. */
  ghost predicate PrintsOne<E(!new)>(codec: Codec<E>, e: E) {
    var json := codec.stringify(e);
    && codec.parse(json) == Some(e)
    && !HasTerminator(codec.kind(e)) && '\n' !in json && '\r' !in json
    && json != "" && json[0] == '{'
    && forall k :: 0 <= k < |json| ==> codec.parse(json[..k]) == None
  }

  predicate Raw<E>(codec: Codec<E>, e: E) { HasTerminator(codec.stringify(e)) }

  lemma PrintedIsWhole<E(!new)>(codec: Codec<E>, e: E)
    requires PrintsOne(codec, e)
    ensures Whole(Printed(codec, e))
  {
    LinesAreWhole("event: " + codec.kind(e), "data: " + codec.stringify(e));
    assert "event: " + codec.kind(e) + "\n" + "data: " + codec.stringify(e)
      == "event: " + codec.kind(e) + "\n" + ("data: " + codec.stringify(e));
  }

  lemma LinesAreWhole(first: string, second: string)
    requires '\n' !in first && '\n' !in second && second != ""
    ensures Whole(first + "\n" + second)
  {
    var s := first + "\n" + second + BLANK;
    var n := |s| - 2;
    assert s[|first| + 1] == second[0];
    forall j | 0 <= j < n ensures !BlankAt(s, j) {
      if j < |first| {
        assert s[j] == first[j];
      } else if j > |first| {
        assert s[j] == second[j - |first| - 1];
      }
    }
    assert BlankAt(s, n);
    FirstBlankUnique(s, n);
  }

  lemma FirstTerminatorUnique(s: string, i: nat)
    requires i <= |s| && (i < |s| ==> IsTerminator(s[i])) && forall j :: 0 <= j < i ==> !IsTerminator(s[j])
    ensures FirstTerminator(s) == i
  {
  }

  lemma DataLineOf(json: string)
    ensures DataLine(DATA + json) == Some(json[..FirstTerminator(json)])
  {
    var rest, k := DATA + json, |DATA| + FirstTerminator(json);
    assert forall j :: 0 <= j < |DATA| ==> !IsTerminator(DATA[j]);
    assert forall j :: 0 <= j < |json| ==> rest[j + |DATA|] == json[j];
    forall j | 0 <= j < k ensures !IsTerminator(rest[j]) {
      assert j >= |DATA| ==> rest[j] == json[j - |DATA|];
    }
    FirstTerminatorUnique(rest, k);
    assert rest[..k] == DATA + json[..FirstTerminator(json)];
  }

  lemma SkipFirstLine(first: string, rest: string)
    requires !HasTerminator(first) && first != "" && first[0] != 'd'
    ensures DataLine(first + "\n" + rest) == DataLine(rest)
  {
    var s := first + "\n" + rest;
    assert forall j :: 0 <= j < |first| ==> s[j] == first[j];
    FirstTerminatorUnique(s, |first|);
    assert s[..|first|] == first && s[|first| + 1..] == rest;
  }

  /** A frame without a data line, or whose data line is empty, yields no event. */
  lemma NoDataNoEvent<E>(codec: Codec<E>, line: string)
    requires !HasTerminator(line) && line != "" && line[0] != 'd'
    ensures ParseFrame(codec, line) == None && ParseFrame(codec, line + "\n" + DATA) == None
  {
    FirstTerminatorUnique(line, |line|);
    SkipFirstLine(line, DATA);
    FirstTerminatorUnique(DATA, |DATA|);
    assert line[..|line|] == line && DATA[..|DATA|] == DATA && DATA[|DATA|..] == "";
  }

  lemma EventLine<E(!new)>(codec: Codec<E>, e: E)
    requires PrintsOne(codec, e)
    ensures !HasTerminator("event: " + codec.kind(e))
  {
    var kind, line := codec.kind(e), "event: " + codec.kind(e);
    forall j | 0 <= j < |line| ensures !IsTerminator(line[j]) {
      if j >= 7 {
        assert line[j] == kind[j - 7];
      }
    }
  }

  /** Reading one printed frame: the event, unless its JSON carries a raw line separator. */
  lemma ParsePrinted<E(!new)>(codec: Codec<E>, e: E)
    requires PrintsOne(codec, e)
    ensures ParseFrame(codec, Printed(codec, e)) == if Raw(codec, e) then None else Some(e)
  {
    var line, json := "event: " + codec.kind(e), codec.stringify(e);
    EventLine(codec, e);
    SkipFirstLine(line, DATA + json);
    assert Printed(codec, e) == line + "\n" + (DATA + json);
    DataLineOf(json);
    JsonLine(codec, e);
  }

  lemma JsonLine<E(!new)>(codec: Codec<E>, e: E)
    requires PrintsOne(codec, e)
    ensures var line := codec.stringify(e)[..FirstTerminator(codec.stringify(e))];
      line != "" && codec.parse(line) == if Raw(codec, e) then None else Some(e)
  {
    var json := codec.stringify(e);
    if FirstTerminator(json) == |json| {
      assert json[..|json|] == json;
    } else {
      assert IsTerminator(json[FirstTerminator(json)]);
    }
  }

  /** The events the reader gives back: those whose JSON carries no raw line separator. */
  function Kept<E>(codec: Codec<E>, events: seq<E>): seq<E> {
    if events == [] then [] else (if Raw(codec, events[0]) then [] else [events[0]]) + Kept(codec, events[1..])
  }

  lemma {:induction false} KeptAll<E>(codec: Codec<E>, events: seq<E>)
    ensures |Kept(codec, events)| <= |events|
    ensures Kept(codec, events) == events <==> forall i :: 0 <= i < |events| ==> !Raw(codec, events[i])
  {
    if events != [] {
      KeptAll(codec, events[1..]);
      assert forall i :: 1 <= i < |events| ==> events[i] == events[1..][i - 1];
      assert events == [events[0]] + events[1..];
      if !Raw(codec, events[0]) {
        assert Kept(codec, events)[1..] == Kept(codec, events[1..]);
      }
    }
  }

  lemma {:induction false} EventsOfPrinted<E(!new)>(codec: Codec<E>, events: seq<E>)
    requires forall i :: 0 <= i < |events| ==> PrintsOne(codec, events[i])
    ensures Events(codec, PrintedFrames(codec, events)) == Kept(codec, events)
  {
    if events != [] {
      hide ParseFrame, PrintsOne, Raw;
      ParsePrinted(codec, events[0]);
      assert PrintedFrames(codec, events)[1..] == PrintedFrames(codec, events[1..]);
      EventsOfPrinted(codec, events[1..]);
    }
  }

  /** Print, cut anywhere, read back: under any chunking the reader yields exactly the events whose JSON
      holds no raw line separator, in order, with nothing left over; so it yields the very list that was
      sent if and only if no event's JSON contains U+2028 or U+2029. */
  lemma RoundTrip<E(!new)>(codec: Codec<E>, events: seq<E>, chunks: seq<string>)
    requires forall i :: 0 <= i < |events| ==> PrintsOne(codec, events[i])
    requires Concat(chunks) == Joined(PrintedFrames(codec, events))
    ensures Tail(Concat(chunks)) == ""
    ensures Events(codec, Frames(Concat(chunks))) == Kept(codec, events)
    ensures Events(codec, Frames(Concat(chunks))) == events
      <==> forall i :: 0 <= i < |events| ==>
        '\U{2028}' !in codec.stringify(events[i]) && '\U{2029}' !in codec.stringify(events[i])
  {
    var frames := PrintedFrames(codec, events);
    forall i | 0 <= i < |frames| ensures Whole(frames[i]) {
      PrintedIsWhole(codec, events[i]);
    }
    SplitOfJoined(frames, "");
    assert Joined(frames) + "" == Joined(frames);
    EventsOfPrinted(codec, events);
    KeptAll(codec, events);
    forall i | 0 <= i < |events|
      ensures Raw(codec, events[i])
        <==> '\U{2028}' in codec.stringify(events[i]) || '\U{2029}' in codec.stringify(events[i])
    {
      RawSeparators(codec, events[i]);
    }
  }

  lemma RawSeparators<E(!new)>(codec: Codec<E>, e: E)
    requires PrintsOne(codec, e)
    ensures Raw(codec, e) <==> '\U{2028}' in codec.stringify(e) || '\U{2029}' in codec.stringify(e)
  {
    var json := codec.stringify(e);
    if Raw(codec, e) {
      var i :| 0 <= i < |json| && IsTerminator(json[i]);
      assert json[i] in json;
    }
  }
}
