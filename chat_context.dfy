/**
 * The chat provider's state (`messages`, `sessionId`, `isLoading`) and the handlers
 * that write it: sending a message while its reply streams in, starting a new chat,
 * and loading a stored session.
 */
module ChatContext {
  import opened Wrappers
  import opened JsString
  import opened EventStream
  import opened Transcript

  /** What one send receives from outside: the stored token, the server's response
      and the clock (`Date.now()` and `new Date().toISOString()`). */
  datatype Env = Env(token: Option<string>, response: Response, now: int, stamp: string)

  /** `sessionId || 0`: no session yet is sent as 0. */
  function SessionArg(sessionId: Option<int>): int
  {
    match sessionId
    case None => 0
    case Some(id) => id
  }

  /** The send guard: blank content, or a send already under way, is refused. */
  predicate Admits(content: string, isLoading: bool) {
    Trim(content) != "" && !isLoading
  }

  /** The text the assistant entry ends up holding: everything `onMessage` delivered. */
  function Reply(env: Env): string {
    if HasToken(env.token) then Concat(Delivered(env.response)) else ""
  }

  /** The stream completed and `onDone` fired. */
  predicate Completes(env: Env) {
    HasToken(env.token) && env.response.Streamed? && !env.response.readFails
  }

  /** The two entries an admitted send leaves: the user entry with the content as typed,
      then the assistant entry holding the whole reply. */
  function Exchange(content: string, env: Env): Transcript
  {
    [UserEntry(content, env.now, env.stamp), AssistantEntry(Reply(env), env.now, env.stamp)]
  }

  /** The session after a send: the id `onDone` reports, which is the one sent. */
  function SessionAfter(sessionId: Option<int>, env: Env): Option<int>
  {
    if Completes(env) then Some(SessionArg(sessionId)) else sessionId
  }

  /** The state write of one callback: `onMessage` runs the chunk updater, `onDone`
      adopts the id it is given. */
  function Step(msgs: Transcript, sessionId: Option<int>, call: Callback): (Transcript, Option<int>) {
    match call
    case OnMessage(chunk) => (AppendChunk(msgs, chunk), sessionId)
    case OnDone(id) => (msgs, Some(id))
  }

  /** The state writes a callback trace makes, in order. */
  function Replay(msgs: Transcript, sessionId: Option<int>, calls: seq<Callback>): (Transcript, Option<int>) {
    if calls == [] then (msgs, sessionId)
    else
      var (m, s) := Replay(msgs, sessionId, calls[..|calls| - 1]);
      Step(m, s, calls[|calls| - 1])
  }

  lemma ReplayPrefix(msgs: Transcript, sessionId: Option<int>, calls: seq<Callback>, k: int)
    requires 0 <= k < |calls|
    ensures var (m, s) := Replay(msgs, sessionId, calls[..k]);
            Replay(msgs, sessionId, calls[..k + 1]) == Step(m, s, calls[k])
  {
    assert calls[..k + 1][..k] == calls[..k];
  }

  lemma ReplayDone(msgs: Transcript, sessionId: Option<int>, calls: seq<Callback>, id: int)
    ensures Replay(msgs, sessionId, calls + [OnDone(id)]) == (Replay(msgs, sessionId, calls).0, Some(id))
  {
    assert (calls + [OnDone(id)])[..|calls|] == calls;
  }

  lemma {:induction false} ReplayMessages(msgs: Transcript, sessionId: Option<int>, ms: seq<string>)
    ensures Replay(msgs, sessionId, OnMessages(ms)) == (ApplyChunks(msgs, ms), sessionId)
    decreases |ms|
  {
    if ms != [] {
      var init := ms[..|ms| - 1];
      assert OnMessages(ms)[..|ms| - 1] == OnMessages(init);
      ReplayMessages(msgs, sessionId, init);
    }
  }

  /** The callbacks `sendChatMessage` makes for one send once it is awaited: one
      `onMessage` per delivered message, then `onDone(sessionArg)` when the stream
      completes; none at all without a token. */
  function SendTrace(env: Env, sessionArg: int): seq<Callback> {
    if HasToken(env.token) then
      OnMessages(Delivered(env.response)) + (if Completes(env) then [OnDone(sessionArg)] else [])
    else []
  }

  /** The messages a send streams: those the response delivers, once the request
      went out. */
  function ReplyPieces(env: Env): seq<string> {
    if HasToken(env.token) then Delivered(env.response) else []
  }

  /** The texts a callback trace passes to `onMessage`, in order. */
  function Chunks(calls: seq<Callback>): seq<string> {
    if calls == [] then []
    else
      var last := calls[|calls| - 1];
      Chunks(calls[..|calls| - 1]) + (if last.OnMessage? then [last.content] else [])
  }

  /** The session after a callback trace: the id of its last `onDone`, if it has one. */
  function LastDone(sessionId: Option<int>, calls: seq<Callback>): Option<int> {
    if calls == [] then sessionId
    else
      var last := calls[|calls| - 1];
      if last.OnDone? then Some(last.sessionId) else LastDone(sessionId, calls[..|calls| - 1])
  }

  /** Any callback trace: the transcript goes through the chunk updater once per
      `onMessage` text, in order, and the session ends as the last `onDone` left it. */
  lemma {:induction false} ReplayAll(msgs: Transcript, sessionId: Option<int>, calls: seq<Callback>)
    ensures Replay(msgs, sessionId, calls) == (ApplyChunks(msgs, Chunks(calls)), LastDone(sessionId, calls))
    decreases |calls|
  {
    if calls != [] {
      var init, last := calls[..|calls| - 1], calls[|calls| - 1];
      ReplayAll(msgs, sessionId, init);
      var cs := Chunks(init);
      if last.OnMessage? {
        assert (cs + [last.content])[..|cs|] == cs;
      } else {
        assert cs + [] == cs;
      }
    }
  }

  /** The `onMessage` texts of two traces in a row are those of the first, then those
      of the second. */
  lemma {:induction false} ChunksAppend(a: seq<Callback>, b: seq<Callback>)
    ensures Chunks(a + b) == Chunks(a) + Chunks(b)
    decreases |b|
  {
    if b == [] {
      assert a + b == a;
    } else {
      var init, last := b[..|b| - 1], b[|b| - 1];
      assert (a + b)[..|a + b| - 1] == a + init;
      ChunksAppend(a, init);
    }
  }

  /** A trace of `onMessage` calls passes on exactly its messages. */
  lemma {:induction false} ChunksOfMessages(ms: seq<string>)
    ensures Chunks(OnMessages(ms)) == ms
    decreases |ms|
  {
    if ms != [] {
      var init := ms[..|ms| - 1];
      assert OnMessages(ms)[..|ms| - 1] == OnMessages(init);
      ChunksOfMessages(init);
      assert ms == init + [ms[|ms| - 1]];
    }
  }

  /** A send's trace passes on exactly the messages of its reply, and joined they are
      the text the assistant entry ends up holding. */
  lemma SendTraceChunks(env: Env, sessionArg: int)
    ensures Chunks(SendTrace(env, sessionArg)) == ReplyPieces(env)
    ensures Concat(ReplyPieces(env)) == Reply(env)
  {
    if HasToken(env.token) {
      var ms := Delivered(env.response);
      var tail: seq<Callback> := if Completes(env) then [OnDone(sessionArg)] else [];
      ChunksAppend(OnMessages(ms), tail);
      ChunksOfMessages(ms);
      assert Chunks(tail) == [] by {
        if tail != [] {
          assert tail[..0] == [];
        }
      }
      assert ms + [] == ms;
    }
  }

  /** A send's trace holds no `onDone` but one with the id it was given, and holds that
      one exactly when the stream completes. */
  lemma SendTraceDone(env: Env, sessionArg: int)
    ensures forall c :: c in SendTrace(env, sessionArg) && c.OnDone? ==> c == OnDone(sessionArg)
    ensures OnDone(sessionArg) in SendTrace(env, sessionArg) <==> Completes(env)
  {
    if HasToken(env.token) {
      var streamed := OnMessages(Delivered(env.response));
      assert forall c :: c in streamed ==> c.OnMessage? by {
        forall c | c in streamed
          ensures c.OnMessage?
        {
          var k :| 0 <= k < |streamed| && streamed[k] == c;
        }
      }
    }
  }

  /** In a trace whose every `onDone` carries the same id, the session ends with that
      id when there is an `onDone`, and is left alone otherwise. */
  lemma {:induction false} LastDoneUniform(sessionId: Option<int>, calls: seq<Callback>, id: int)
    requires forall c :: c in calls && c.OnDone? ==> c == OnDone(id)
    ensures LastDone(sessionId, calls) == if OnDone(id) in calls then Some(id) else sessionId
    decreases |calls|
  {
    if calls != [] {
      var init, last := calls[..|calls| - 1], calls[|calls| - 1];
      assert calls == init + [last];
      assert forall c :: c in init ==> c in calls;
      LastDoneUniform(sessionId, init, id);
    }
  }

  /** Replaying the trace `sendChatMessage` produces for a send: the reply is streamed
      into the placeholder, and the session adopts the id passed in when the stream
      completes. */
  lemma ReplaySend(earlier: Transcript, sessionId: Option<int>, content: string, env: Env,
                   calls: seq<Callback>)
    requires calls == SendTrace(env, SessionArg(sessionId))
    ensures Replay(earlier + [UserEntry(content, env.now, env.stamp)]
                     + [AssistantEntry("", env.now, env.stamp)], sessionId, calls)
            == (earlier + Exchange(content, env), SessionAfter(sessionId, env))
  {
    var placeholder := AssistantEntry("", env.now, env.stamp);
    var before := earlier + [UserEntry(content, env.now, env.stamp)];
    var start := before + [placeholder];
    var ms := if HasToken(env.token) then Delivered(env.response) else [];
    var streamed := OnMessages(ms);
    assert OnMessages([]) == [];
    ReplayMessages(start, sessionId, ms);
    PlaceholderCollects(before, placeholder, ms);
    assert placeholder.(content := Concat(ms)) == AssistantEntry(Reply(env), env.now, env.stamp);
    assert before + [placeholder.(content := Concat(ms))] == earlier + Exchange(content, env);
    var end := earlier + Exchange(content, env);
    assert Replay(start, sessionId, streamed) == (end, sessionId);
    if Completes(env) {
      assert calls == streamed + [OnDone(SessionArg(sessionId))];
      ReplayDone(start, sessionId, streamed, SessionArg(sessionId));
    } else {
      assert calls == streamed;
    }
  }

  /** The state held by the chat provider. */
  class ChatState {
    var messages: Transcript
    var sessionId: Option<int>
    var isLoading: bool

    constructor ()
      ensures messages == [] && sessionId == None && !isLoading
    {
      messages := [];
      sessionId := None;
      isLoading := false;
    }

    /** `handleSendMessage(content)`: refused on blank content or while loading;
        otherwise the user entry and an empty assistant entry are appended, the
        request goes out with `sessionId || 0`, each `onMessage` streams into the
        assistant entry, `onDone` adopts its id, and loading ends whether the send
        succeeded or threw. Returns the request that reached the network, if any. */
    method SendMessage(content: string, env: Env) returns (request: Option<Request>)
      modifies this
      ensures !Admits(content, old(isLoading)) ==>
                request == None && unchanged(this)
      ensures Admits(content, old(isLoading)) ==>
                && messages == old(messages) + Exchange(content, env)
                && sessionId == SessionAfter(old(sessionId), env)
                && !isLoading
                && request == (if HasToken(env.token)
                               then Some(Request(content, SessionArg(old(sessionId)), env.token.value))
                               else None)
    {
      if Trim(content) == "" || isLoading {
        return None;
      }
      isLoading := true;
      messages := messages + [UserEntry(content, env.now, env.stamp)];
      messages := messages + [AssistantEntry("", env.now, env.stamp)];
      ghost var session0 := sessionId;
      var calls, error;
      request, calls, error := SendChatMessage(env.token, content, SessionArg(sessionId), env.response);
      assert calls == SendTrace(env, SessionArg(session0));
      RunCallbacks(calls);
      ReplaySend(old(messages), session0, content, env, calls);
      isLoading := false;
    }

    /** The callbacks of one send, run in the order `sendChatMessage` makes them. */
    method RunCallbacks(calls: seq<Callback>)
      modifies this`messages, this`sessionId
      ensures (messages, sessionId) == Replay(old(messages), old(sessionId), calls)
    {
      ghost var before, session0 := messages, sessionId;
      for k := 0 to |calls|
        invariant (messages, sessionId) == Replay(before, session0, calls[..k])
      {
        ReplayPrefix(before, session0, calls, k);
        match calls[k]
        case OnMessage(chunk) =>
          messages := AppendChunk(messages, chunk);
        case OnDone(id) =>
          sessionId := Some(id);
      }
      assert calls[..|calls|] == calls;
    }

    /** `handleStartNewChat`: an empty transcript and no session. */
    method StartNewChat()
      modifies this
      ensures messages == [] && sessionId == None && isLoading == old(isLoading)
    {
      messages := [];
      sessionId := None;
    }

    /** `loadSessionMessages(id)` with the fetched history as input (`None` when the
        fetch throws): on success the transcript becomes the expanded history and the
        session becomes `id`; on failure both stay; loading ends false either way. */
    method LoadSessionMessages(id: int, fetched: Option<seq<SessionRecord>>, now: int, stamp: string)
      modifies this
      ensures !isLoading
      ensures fetched.None? ==> messages == old(messages) && sessionId == old(sessionId)
      ensures fetched.Some? ==>
                && sessionId == Some(id)
                && |messages| == 2 * |fetched.value|
                && forall i :: 0 <= i < |fetched.value| ==>
                     IsExchange(fetched.value[i], now, stamp, messages[2 * i], messages[2 * i + 1])
    {
      isLoading := true;
      if fetched.Some? {
        var entries := ExpandHistory(fetched.value, now, stamp);
        messages := entries;
        sessionId := Some(id);
      }
      isLoading := false;
    }
  }
}
