/**
 * The streaming response decoder of `sendChatMessage` (src/app/api/chat.ts).
 *
 * The response text arrives in chunks. A mutable buffer accumulates them; after
 * every chunk, each complete event (the text before the first "\n\n") is cut off
 * the front of the buffer and turned into at most one message for the
 * `onMessageCallback`. At end of stream a non-blank leftover buffer is passed on
 * raw, then `onDoneCallback` receives the session id the caller passed in.
 *
 * `Frames` is the specification of the cutting: it splits a whole text into its
 * delimited events and the undelimited rest. The `Decoder` class keeps the
 * buffer and is proved to agree, after any sequence of chunks, with `Frames` of
 * everything received so far (hence the output does not depend on where the
 * chunks were split).
 */
module EventStream {
  import opened Wrappers
  import opened JsString

  // ---------------------------------------------------------------------------
  // Delimiting events

  /** The event delimiter "\n\n" starts at position `i` of `s`. */
  predicate DelimiterAt(s: string, i: int) {
    0 <= i < |s| - 1 && s[i] == '\n' && s[i + 1] == '\n'
  }

  /** `s` contains the event delimiter somewhere. */
  predicate HasDelimiter(s: string) {
    exists i | 0 <= i < |s| - 1 :: DelimiterAt(s, i)
  }

  /** No delimiter starts before position `n - 1` of `s` when its first `n` characters hold none. */
  lemma NoDelimiterBefore(s: string, n: nat)
    requires n <= |s| && !HasDelimiter(s[..n])
    ensures forall j :: 0 <= j < n - 1 ==> !DelimiterAt(s, j)
  {
    forall j | 0 <= j < n - 1
      ensures !DelimiterAt(s, j)
    {
      assert !DelimiterAt(s[..n], j);
      assert s[..n][j] == s[j] && s[..n][j + 1] == s[j + 1];
    }
  }

  /** `s.indexOf("\n\n")`: the start of a delimiter, or -1 if there is none. */
  function DelimiterIndex(s: string): (r: int)
    ensures r == -1 <==> !HasDelimiter(s)
    ensures r != -1 ==> DelimiterAt(s, r)
  {
    if |s| < 2 then
      assert !HasDelimiter(s);
      -1
    else if s[0] == '\n' && s[1] == '\n' then
      assert DelimiterAt(s, 0);
      0
    else
      var k := DelimiterIndex(s[1..]);
      if k == -1 then
        assert !HasDelimiter(s) by {
          forall i | 0 <= i < |s| - 1
            ensures !DelimiterAt(s, i)
          {
            if i > 0 {
              assert !DelimiterAt(s[1..], i - 1);
              assert s[i] == s[1..][i - 1] && s[i + 1] == s[1..][i];
            }
          }
        }
        -1
      else
        assert s[1..][k] == s[k + 1] && s[1..][k + 1] == s[k + 2];
        assert DelimiterAt(s, k + 1);
        k + 1
  }

  /** The delimiter `indexOf` finds is the first one: none starts before it. */
  lemma {:induction false} DelimiterIndexFirst(s: string)
    requires HasDelimiter(s)
    ensures !HasDelimiter(s[..DelimiterIndex(s) + 1])
    decreases |s|
  {
    var r := DelimiterIndex(s);
    var before := s[..r + 1];
    if r > 0 {
      var k := DelimiterIndex(s[1..]);
      assert k == r - 1;
      DelimiterIndexFirst(s[1..]);
      NoDelimiterBefore(s[1..], k + 1);
      forall i | 0 <= i < |before| - 1
        ensures !DelimiterAt(before, i)
      {
        if i > 0 {
          assert !DelimiterAt(s[1..], i - 1);
          assert before[i] == s[1..][i - 1] && before[i + 1] == s[1..][i];
        } else {
          assert !(s[0] == '\n' && s[1] == '\n');
        }
      }
    }
  }

  /** An event as the decoder cuts it: no delimiter inside, and no trailing newline
      (a trailing newline would have formed a delimiter with the one that ended it). */
  predicate IsFrame(e: string) {
    !HasDelimiter(e) && (e == [] || e[|e| - 1] != '\n')
  }

  /** The text before the first delimiter is a frame. */
  lemma FirstEventIsFrame(s: string)
    requires HasDelimiter(s)
    ensures IsFrame(s[..DelimiterIndex(s)])
  {
    var i := DelimiterIndex(s);
    var event := s[..i];
    DelimiterIndexFirst(s);
    NoDelimiterBefore(s, i + 1);
    forall j | 0 <= j < |event| - 1
      ensures !DelimiterAt(event, j)
    {
      assert !DelimiterAt(s, j);
      assert event[j] == s[j] && event[j + 1] == s[j + 1];
    }
    if event != [] {
      assert !DelimiterAt(s, i - 1);
      assert event[i - 1] == s[i - 1];
    }
  }

  /** Each event followed by its delimiter, in order: the text the events came from. */
  function JoinFrames(events: seq<string>): string {
    if events == [] then "" else events[0] + "\n\n" + JoinFrames(events[1..])
  }

  lemma {:induction false} JoinFramesAppend(a: seq<string>, b: seq<string>)
    ensures JoinFrames(a + b) == JoinFrames(a) + JoinFrames(b)
    decreases |a|
  {
    if a == [] {
      assert a + b == b;
    } else {
      assert (a + b)[1..] == a[1..] + b;
      JoinFramesAppend(a[1..], b);
    }
  }

  lemma JoinFramesCons(e: string, events: seq<string>)
    ensures JoinFrames([e] + events) == e + "\n\n" + JoinFrames(events)
  {
    assert ([e] + events)[1..] == events;
  }

  /** Around a delimiter, a text is what precedes it, the delimiter, and what follows. */
  lemma SplitAtDelimiter(s: string, i: int)
    requires DelimiterAt(s, i)
    ensures s == s[..i] + "\n\n" + s[i + 2..]
  {
  }

  /** Putting back the event cut at a delimiter in front of a join of what follows. */
  lemma JoinAtDelimiter(s: string, i: int, events: seq<string>, rest: string)
    requires DelimiterAt(s, i)
    requires JoinFrames(events) + rest == s[i + 2..]
    ensures JoinFrames([s[..i]] + events) + rest == s
  {
    JoinFramesCons(s[..i], events);
    SplitAtDelimiter(s, i);
  }

  /** Regrouping a concatenation, as a step the proofs of `JoinTwoFramings`,
      `MessagesAppendStep` and `DrainStep` name explicitly. */
  lemma AppendAssoc<T>(a: seq<T>, b: seq<T>, c: seq<T>)
    ensures a + (b + c) == (a + b) + c
  {
  }

  lemma ConcatLast(chunks: seq<string>, k: int)
    requires 0 <= k < |chunks|
    ensures Concat(chunks[..k + 1]) == Concat(chunks[..k]) + chunks[k]
  {
    assert chunks[..k + 1][..k] == chunks[..k];
  }

  /** A text split into its complete events and the undelimited rest. */
  datatype Framing = Framing(events: seq<string>, rest: string)

  /** Repeatedly cut the text before the first "\n\n" off the front of `s`. The
      events followed by "\n\n", then the rest, give back `s`. */
  function Frames(s: string): (f: Framing)
    ensures JoinFrames(f.events) + f.rest == s
    decreases |s|
  {
    var i := DelimiterIndex(s);
    if i == -1 then Framing([], s)
    else
      var tail := Frames(s[i + 2..]);
      JoinAtDelimiter(s, i, tail.events, tail.rest);
      Framing([s[..i]] + tail.events, tail.rest)
  }

  /** Without a delimiter there is no event: everything stays buffered. */
  lemma FramesNoDelimiter(s: string)
    requires DelimiterIndex(s) == -1
    ensures Frames(s) == Framing([], s)
  {
  }

  /** One step of `Frames`: the text before the first delimiter is the first event. */
  lemma FramesAtDelimiter(s: string)
    requires DelimiterIndex(s) != -1
    ensures Frames(s).events == [s[..DelimiterIndex(s)]] + Frames(s[DelimiterIndex(s) + 2..]).events
    ensures Frames(s).rest == Frames(s[DelimiterIndex(s) + 2..]).rest
  {
    var i := DelimiterIndex(s);
    var tail := Frames(s[i + 2..]);
    assert Frames(s) == Framing([s[..i]] + tail.events, tail.rest);
  }

  /** Every event `Frames` cuts is a frame, and the rest it leaves holds no delimiter. */
  lemma {:induction false} FramesWellFormed(s: string)
    ensures forall k :: 0 <= k < |Frames(s).events| ==> IsFrame(Frames(s).events[k])
    ensures !HasDelimiter(Frames(s).rest)
    decreases |s|
  {
    var i := DelimiterIndex(s);
    if i == -1 {
      FramesNoDelimiter(s);
    } else {
      var t := s[i + 2..];
      FramesAtDelimiter(s);
      FirstEventIsFrame(s);
      FramesWellFormed(t);
      var events := Frames(s).events;
      assert events == [s[..i]] + Frames(t).events;
      forall k | 0 <= k < |events|
        ensures IsFrame(events[k])
      {
        if k > 0 {
          assert events[k] == Frames(t).events[k - 1];
        }
      }
    }
  }

  /** After a frame and its delimiter, the first delimiter is that one. */
  lemma DelimiterAfterFrame(e: string, t: string)
    requires IsFrame(e)
    ensures DelimiterIndex(e + "\n\n" + t) == |e|
  {
    var s := e + "\n\n" + t;
    assert DelimiterAt(s, |e|);
    var r := DelimiterIndex(s);
    DelimiterIndexFirst(s);
    NoDelimiterBefore(s, r + 1);
    forall j | 0 <= j < |e|
      ensures !DelimiterAt(s, j)
    {
      if j < |e| - 1 {
        assert !DelimiterAt(e, j);
        assert s[j] == e[j] && s[j + 1] == e[j + 1];
      } else {
        assert s[j] == e[j];
      }
    }
  }

  /** Framing a frame, its delimiter and more: the frame comes first. */
  lemma FramesAfterFrame(e: string, t: string)
    requires IsFrame(e)
    ensures Frames(e + "\n\n" + t) == Framing([e] + Frames(t).events, Frames(t).rest)
  {
    var s := e + "\n\n" + t;
    DelimiterAfterFrame(e, t);
    assert s[..|e|] == e;
    assert s[|e| + 2..] == t;
  }

  /** `Frames` is the only way to split a text into frames and a delimiter-free rest:
      any such split of `JoinFrames(events) + rest` is the one `Frames` finds. */
  lemma {:induction false} FramesUnique(events: seq<string>, rest: string)
    requires forall k :: 0 <= k < |events| ==> IsFrame(events[k])
    requires !HasDelimiter(rest)
    ensures Frames(JoinFrames(events) + rest) == Framing(events, rest)
    decreases |events|
  {
    if events == [] {
      assert JoinFrames(events) + rest == rest;
      assert DelimiterIndex(rest) == -1;
    } else {
      var e := events[0];
      var t := JoinFrames(events[1..]) + rest;
      JoinFramesCons(e, events[1..]);
      assert [e] + events[1..] == events;
      assert JoinFrames(events) + rest == e + "\n\n" + t;
      FramesUnique(events[1..], rest);
      FramesAfterFrame(e, t);
    }
  }

  /** Two framings in a row: the events of a text, then the events of its rest with
      more text appended, framed with the final rest, give back the whole text. */
  lemma JoinTwoFramings(s: string, chunk: string, fe: seq<string>, fr: string, ge: seq<string>, gr: string)
    requires JoinFrames(fe) + fr == s
    requires JoinFrames(ge) + gr == fr + chunk
    ensures JoinFrames(fe + ge) + gr == s + chunk
  {
    JoinFramesAppend(fe, ge);
    AppendAssoc(JoinFrames(fe), JoinFrames(ge), gr);
    AppendAssoc(JoinFrames(fe), fr, chunk);
  }

  /** Two lists of well-formed events in a row form a list of well-formed events. */
  lemma AllFrames(a: seq<string>, b: seq<string>)
    requires forall k :: 0 <= k < |a| ==> IsFrame(a[k])
    requires forall k :: 0 <= k < |b| ==> IsFrame(b[k])
    ensures forall k :: 0 <= k < |a + b| ==> IsFrame((a + b)[k])
  {
  }

  /** Chunk-boundary independence, one step: framing `s + chunk` gives the events of
      `s`, then the events of its rest with `chunk` appended; what stays buffered is
      the rest of that second framing. */
  lemma FramesIncremental(s: string, chunk: string)
    ensures Frames(s + chunk).events
         == Frames(s).events + Frames(Frames(s).rest + chunk).events
    ensures Frames(s + chunk).rest == Frames(Frames(s).rest + chunk).rest
  {
    var f := Frames(s);
    var g := Frames(f.rest + chunk);
    JoinTwoFramings(s, chunk, f.events, f.rest, g.events, g.rest);
    FramesWellFormed(s);
    FramesWellFormed(f.rest + chunk);
    AllFrames(f.events, g.events);
    FramesUnique(f.events + g.events, g.rest);
  }

  // ---------------------------------------------------------------------------
  // The content of one event

  const DataPrefix: string := "data:"

  /** What one line of an event adds to its content: a `data:` line without the
      prefix and its leading whitespace, any other non-blank line verbatim, each
      followed by "\n"; a blank non-data line adds nothing. */
  function LineContent(line: string): string {
    if StartsWith(line, DataPrefix) then TrimStart(line[|DataPrefix|..]) + "\n"
    else if Trim(line) != "" then line + "\n"
    else ""
  }

  /** The content accumulated over a list of lines, in order. */
  function ContentOf(lines: seq<string>): string {
    if lines == [] then ""
    else ContentOf(lines[..|lines| - 1]) + LineContent(lines[|lines| - 1])
  }

  /** A line contributes nothing exactly when it is a blank line without `data:`. */
  predicate IsSkipped(line: string) {
    !StartsWith(line, DataPrefix) && IsBlank(line)
  }

  lemma LineContentEmpty(line: string)
    ensures LineContent(line) == "" <==> IsSkipped(line)
  {
    if !StartsWith(line, DataPrefix) {
      assert Trim(line) == "" <==> IsBlank(line);
    }
  }

  lemma ContentOfLast(lines: seq<string>)
    requires lines != []
    ensures ContentOf(lines) == ContentOf(lines[..|lines| - 1]) + LineContent(lines[|lines| - 1])
  {
  }

  /** One more pass of the line loop adds that line's contribution at the end. */
  lemma ContentOfPrefix(lines: seq<string>, k: int)
    requires 0 <= k < |lines|
    ensures ContentOf(lines[..k + 1]) == ContentOf(lines[..k]) + LineContent(lines[k])
  {
    assert lines[..k + 1][..k] == lines[..k];
  }

  lemma ContentEmptyStep(lines: seq<string>)
    requires lines != []
    ensures ContentOf(lines) == ""
        <==> ContentOf(lines[..|lines| - 1]) == "" && LineContent(lines[|lines| - 1]) == ""
  {
    ContentOfLast(lines);
  }

  /** Every line is a blank line without `data:`. */
  predicate AllSkipped(lines: seq<string>) {
    forall k :: 0 <= k < |lines| ==> IsSkipped(lines[k])
  }

  /** Every line of a non-empty list is skipped exactly when every line but the
      last is and the last is too. */
  lemma AllSkippedStep(lines: seq<string>)
    requires lines != []
    ensures AllSkipped(lines) <==> AllSkipped(lines[..|lines| - 1]) && IsSkipped(lines[|lines| - 1])
  {
    var init := lines[..|lines| - 1];
    assert forall k :: 0 <= k < |init| ==> init[k] == lines[k];
  }

  lemma {:induction false} ContentEmptyIff(lines: seq<string>)
    ensures ContentOf(lines) == "" <==> AllSkipped(lines)
    decreases |lines|
  {
    if lines != [] {
      ContentEmptyIff(lines[..|lines| - 1]);
      LineContentEmpty(lines[|lines| - 1]);
      ContentEmptyStep(lines);
      AllSkippedStep(lines);
    }
  }

  /** The per-event loop of `sendChatMessage`: the content built from the lines of
      `eventData`; it is empty exactly when every line is blank and not a data line. */
  method EventContent(eventData: string) returns (content: string)
    ensures content == ContentOf(Lines(eventData))
    ensures content == "" <==> AllSkipped(Lines(eventData))
  {
    var lines := Lines(eventData);
    content := "";
    for k := 0 to |lines|
      invariant content == ContentOf(lines[..k])
    {
      var line := lines[k];
      var piece := "";
      if StartsWith(line, DataPrefix) {
        piece := TrimStart(line[|DataPrefix|..]) + "\n";
      } else if Trim(line) != "" {
        piece := line + "\n";
      }
      assert piece == LineContent(line);
      ContentOfPrefix(lines, k);
      content := content + piece;
    }
    assert lines[..|lines|] == lines;
    ContentEmptyIff(lines);
  }

  /** The message the callback receives for one event, if any: the right-trimmed
      content, and nothing when the content is empty. */
  function EventMessage(eventData: string): Option<string> {
    var content := ContentOf(Lines(eventData));
    if content != "" then Some(TrimEnd(content)) else None
  }

  /** The callback fires for an event exactly when some line is a data line or
      non-blank; it then receives a string without trailing whitespace. */
  lemma EventMessageFires(eventData: string)
    ensures EventMessage(eventData).None?
        <==> AllSkipped(Lines(eventData))
    ensures EventMessage(eventData).Some? ==>
              var m := EventMessage(eventData).value;
              m == [] || !IsWhitespace(m[|m| - 1])
  {
    var content := ContentOf(Lines(eventData));
    ContentEmptyIff(Lines(eventData));
    if content != "" {
      assert EventMessage(eventData) == Some(TrimEnd(content));
    }
  }

  /** A single `data:` line delivers what follows the prefix with whitespace trimmed
      at both ends; a bare `data:` line delivers the empty string. */
  lemma {:induction false} DataLineMessage(payload: string)
    requires '\n' !in payload
    ensures EventMessage(DataPrefix + payload) == Some(TrimEnd(TrimStart(payload)))
  {
    var line := DataPrefix + payload;
    assert '\n' !in line by {
      assert forall k :: 0 <= k < |line| ==> line[k] == (if k < 5 then DataPrefix[k] else payload[k - 5]);
    }
    LinesOfJoin([line]);
    assert Lines(line) == [line];
    ContentOfLast([line]);
    assert [line][..0] == [];
    assert line[..|DataPrefix|] == DataPrefix && line[|DataPrefix|..] == payload;
    assert LineContent(line) == TrimStart(payload) + "\n";
    assert ContentOf(Lines(line)) == TrimStart(payload) + "\n";
    TrimEndNewline(TrimStart(payload));
  }

  /** Trimming the end of `t + "\n"` is trimming the end of `t`. */
  lemma TrimEndNewline(t: string)
    ensures TrimEnd(t + "\n") == TrimEnd(t)
  {
    assert (t + "\n")[..|t|] == t;
  }

  /** The messages delivered for a list of events, in order; events without content
      deliver nothing. */
  function Messages(events: seq<string>): seq<string> {
    if events == [] then []
    else
      var last := EventMessage(events[|events| - 1]);
      Messages(events[..|events| - 1]) + (if last.Some? then [last.value] else [])
  }

  lemma MessagesLast(events: seq<string>, e: string)
    ensures Messages(events + [e])
         == Messages(events) + (if EventMessage(e).Some? then [EventMessage(e).value] else [])
  {
    assert (events + [e])[..|events|] == events;
  }

  lemma {:induction false} MessagesAppend(a: seq<string>, b: seq<string>)
    ensures Messages(a + b) == Messages(a) + Messages(b)
    decreases |b|
  {
    if b == [] {
      assert a + b == a;
    } else {
      var init, e := b[..|b| - 1], b[|b| - 1];
      assert b == init + [e];
      MessagesAppend(a, init);
      MessagesAppendStep(a, init, e);
    }
  }

  lemma MessagesAppendStep(a: seq<string>, init: seq<string>, e: string)
    requires Messages(a + init) == Messages(a) + Messages(init)
    ensures Messages(a + (init + [e])) == Messages(a) + Messages(init + [e])
  {
    var tail := if EventMessage(e).Some? then [EventMessage(e).value] else [];
    AppendAssoc(a, init, [e]);
    MessagesLast(a + init, e);
    MessagesLast(init, e);
    AppendAssoc(Messages(a), Messages(init), tail);
  }

  /** What is left in the buffer at end of stream is delivered raw when not blank. */
  function Leftover(buffer: string): seq<string> {
    if IsBlank(buffer) then [] else [buffer]
  }

  /** Every message a complete stream `text` delivers, in order. */
  function StreamOutput(text: string): seq<string> {
    var f := Frames(text);
    Messages(f.events) + Leftover(f.rest)
  }

  // ---------------------------------------------------------------------------
  // The decoder: the mutable buffer and its drain loop

  /** One pass of the drain loop keeps the framing of the text it started from:
      the event cut joins the events already taken. */
  lemma DrainStep(pending: string, taken: seq<string>, buffer: string)
    requires DelimiterIndex(buffer) != -1
    requires Frames(pending).events == taken + Frames(buffer).events
    requires Frames(pending).rest == Frames(buffer).rest
    ensures var i := DelimiterIndex(buffer);
            && Frames(pending).events == (taken + [buffer[..i]]) + Frames(buffer[i + 2..]).events
            && Frames(pending).rest == Frames(buffer[i + 2..]).rest
  {
    var i := DelimiterIndex(buffer);
    FramesAtDelimiter(buffer);
    AppendAssoc(taken, [buffer[..i]], Frames(buffer[i + 2..]).events);
  }

  /** When the drain loop stops, it has taken exactly the events of the text it
      started from, and what is buffered is that text's rest. */
  lemma DrainDone(pending: string, taken: seq<string>, buffer: string)
    requires DelimiterIndex(buffer) == -1
    requires Frames(pending).events == taken + Frames(buffer).events
    requires Frames(pending).rest == Frames(buffer).rest
    ensures taken == Frames(pending).events
    ensures buffer == Frames(pending).rest
  {
    FramesNoDelimiter(buffer);
    assert taken + [] == taken;
  }

  /** The handling of one complete event: its content, passed on right-trimmed when
      it is not empty. */
  method ProcessEvent(eventData: string) returns (message: Option<string>)
    ensures message == EventMessage(eventData)
    ensures message.Some? <==> !AllSkipped(Lines(eventData))
  {
    var content := EventContent(eventData);
    if content != "" {
      message := Some(TrimEnd(content));
    } else {
      message := None;
    }
  }

  class Decoder {
    /** The text received but not yet cut into events. */
    var buffer: string
    /** Everything fed so far, concatenated. */
    ghost var received: string
    /** Every event cut so far, in order. */
    ghost var frames: seq<string>

    /** The buffer and the events are exactly the framing of what was received. */
    ghost predicate Valid()
      reads this
    {
      Frames(received) == Framing(frames, buffer)
    }

    constructor ()
      ensures Valid()
      ensures buffer == "" && received == "" && frames == []
    {
      buffer := "";
      received := "";
      frames := [];
      assert !HasDelimiter("");
      FramesUnique([], "");
    }

    /** Append one decoded chunk, then cut off and process every complete event;
        returns the messages passed to the callback, in order. */
    method Feed(chunk: string) returns (out: seq<string>)
      requires Valid()
      modifies this
      ensures Valid()
      ensures received == old(received) + chunk
      ensures frames == old(frames) + Frames(old(buffer) + chunk).events
      ensures buffer == Frames(old(buffer) + chunk).rest
      ensures !HasDelimiter(buffer)
      ensures out == Messages(Frames(old(buffer) + chunk).events)
    {
      ghost var received0, frames0 := received, frames;
      buffer := buffer + chunk;
      ghost var taken;
      out, taken := Drain();
      FramesIncremental(received0, chunk);
      frames := frames0 + taken;
      received := received0 + chunk;
    }

    /** The drain loop: while the buffer holds a delimiter, cut the event before it
        off the front and process it. Leaves the rest of the buffer's framing and
        returns the messages of its events, in order. */
    method Drain() returns (out: seq<string>, ghost taken: seq<string>)
      modifies this`buffer
      ensures taken == Frames(old(buffer)).events
      ensures buffer == Frames(old(buffer)).rest
      ensures DelimiterIndex(buffer) == -1
      ensures out == Messages(taken)
      ensures received == old(received) && frames == old(frames)
    {
      ghost var pending := buffer;
      taken := [];
      out := [];
      while true
        invariant Frames(pending).events == taken + Frames(buffer).events
        invariant Frames(pending).rest == Frames(buffer).rest
        invariant out == Messages(taken)
        decreases |buffer|
      {
        var i := DelimiterIndex(buffer);
        if i == -1 {
          break;
        }
        var eventData := buffer[..i];
        DrainStep(pending, taken, buffer);
        buffer := buffer[i + 2..];
        MessagesLast(taken, eventData);
        taken := taken + [eventData];
        var message := ProcessEvent(eventData);
        if message.Some? {
          out := out + [message.value];
        }
      }
      DrainDone(pending, taken, buffer);
    }

    /** End of stream: the leftover buffer, when it holds a non-whitespace character,
        is the last message, passed on unprocessed. */
    method Finish() returns (last: Option<string>)
      ensures last.Some? <==> exists k :: 0 <= k < |buffer| && !IsWhitespace(buffer[k])
      ensures last.Some? ==> last.value == buffer
    {
      if Trim(buffer) != "" {
        last := Some(buffer);
      } else {
        last := None;
      }
    }
  }

  // ---------------------------------------------------------------------------
  // sendChatMessage

  /** What the network gives back; the transport itself is not modelled. */
  datatype Response =
    | FetchRejected                                  // `fetch` threw
    | NotOk                                          // `response.ok` was false
    | NoBody                                         // no body reader
    | Streamed(chunks: seq<string>, readFails: bool) // decoded chunks, then end or a read error

  /** The POST to /chat/sse: the question, the session id and the bearer token. */
  datatype Request = Request(question: string, sessionId: int, token: string)

  /** One invocation of a callback passed to `sendChatMessage`. */
  datatype Callback = OnMessage(content: string) | OnDone(sessionId: int)

  /** The errors `sendChatMessage` throws. */
  datatype SendError = NotAuthenticated | FetchFailed | SendFailed | NotReadable | ReadFailed

  /** A token counts only when present and non-empty (`if (!token)`). */
  predicate HasToken(token: Option<string>) {
    token.Some? && token.value != ""
  }

  function OnMessages(ms: seq<string>): seq<Callback>
  {
    seq(|ms|, k requires 0 <= k < |ms| => OnMessage(ms[k]))
  }

  lemma OnMessagesAppend(a: seq<string>, b: seq<string>)
    ensures OnMessages(a + b) == OnMessages(a) + OnMessages(b)
  {
  }

  /** The end-of-stream step: the `onMessage` for a non-blank leftover buffer follows
      those for the events. */
  lemma LastCall(ms: seq<string>, rest: string, last: Option<string>, before: seq<Callback>,
                 after: seq<Callback>)
    requires last.Some? <==> exists k :: 0 <= k < |rest| && !IsWhitespace(rest[k])
    requires last.Some? ==> last.value == rest
    requires before == OnMessages(ms)
    requires after == before + (if last.Some? then [OnMessage(last.value)] else [])
    ensures after == OnMessages(ms + Leftover(rest))
  {
    OnMessagesAppend(ms, Leftover(rest));
  }

  /** The messages a response delivers once the request went out: the whole stream
      output when the stream ends normally, only the completed events when a read
      fails, and nothing when no stream was obtained. */
  function Delivered(response: Response): seq<string> {
    match response
    case Streamed(chunks, readFails) =>
      if readFails then Messages(Frames(Concat(chunks)).events) else StreamOutput(Concat(chunks))
    case _ => []
  }

  /** The read loop of `sendChatMessage`: every chunk fed to a fresh decoder in
      order, with an `onMessage` for each completed event that yields a message. */
  method ReadChunks(chunks: seq<string>) returns (decoder: Decoder, calls: seq<Callback>)
    ensures fresh(decoder) && decoder.Valid()
    ensures decoder.received == Concat(chunks)
    ensures decoder.frames == Frames(Concat(chunks)).events
    ensures decoder.buffer == Frames(Concat(chunks)).rest
    ensures calls == OnMessages(Messages(Frames(Concat(chunks)).events))
  {
    decoder := new Decoder();
    calls := [];
    for k := 0 to |chunks|
      invariant fresh(decoder) && decoder.Valid() && decoder.received == Concat(chunks[..k])
      invariant calls == OnMessages(Messages(decoder.frames))
    {
      ghost var framesBefore := decoder.frames;
      ghost var bufferBefore := decoder.buffer;
      var out := decoder.Feed(chunks[k]);
      ConcatLast(chunks, k);
      MessagesAppend(framesBefore, Frames(bufferBefore + chunks[k]).events);
      OnMessagesAppend(Messages(framesBefore), out);
      calls := calls + OnMessages(out);
    }
    assert chunks[..|chunks|] == chunks;
  }

  /** `sendChatMessage(question, sessionId, onMessage, onDone)`, with the token and
      the response as inputs; returns the request sent, the callbacks in the order
      they fire, and the error thrown if any. */
  method SendChatMessage(token: Option<string>, question: string, sessionId: int, response: Response)
    returns (request: Option<Request>, calls: seq<Callback>, error: Option<SendError>)
    ensures !HasToken(token) ==> request == None && calls == [] && error == Some(NotAuthenticated)
    ensures HasToken(token) ==> request == Some(Request(question, sessionId, token.value))
    ensures HasToken(token) && response.FetchRejected? ==> error == Some(FetchFailed)
    ensures HasToken(token) && response.NotOk? ==> error == Some(SendFailed)
    ensures HasToken(token) && response.NoBody? ==> error == Some(NotReadable)
    ensures HasToken(token) && response.Streamed? && response.readFails ==> error == Some(ReadFailed)
    ensures error.None? <==> HasToken(token) && response.Streamed? && !response.readFails
    ensures HasToken(token) ==>
              calls == OnMessages(Delivered(response)) + (if error.None? then [OnDone(sessionId)] else [])
  {
    if !HasToken(token) {
      return None, [], Some(NotAuthenticated);
    }
    request := Some(Request(question, sessionId, token.value));
    calls := [];
    match response
    case FetchRejected =>
      error := Some(FetchFailed);
    case NotOk =>
      error := Some(SendFailed);
    case NoBody =>
      error := Some(NotReadable);
    case Streamed(chunks, readFails) =>
      var decoder, delivered := ReadChunks(chunks);
      calls := delivered;
      if readFails {
        error := Some(ReadFailed);
      } else {
        var last := decoder.Finish();
        ghost var f := Frames(Concat(chunks));
        ghost var before := calls;
        if last.Some? {
          calls := calls + [OnMessage(last.value)];
        }
        LastCall(Messages(f.events), f.rest, last, before, calls);
        calls := calls + [OnDone(sessionId)];
        error := None;
      }
  }
}
