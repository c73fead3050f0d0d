/**
 * The chat page: the text box, its submit and key handlers, the page's own send
 * handler and the New Chat button, over the provider's state.
 *
 * A handler runs against the render that created it: it sees the text box, the
 * loading flag and the session as they were then. A send runs synchronously up to
 * its first `await`; its callbacks and its `finally` run afterwards, once the
 * handler has returned.
 */
module ChatPage {
  import opened Wrappers
  import opened JsString
  import opened Transcript
  import opened EventStream
  import opened ChatContext

  /** How many times `handleKeyDown` reaches `handleSubmit` for one key event:
      once for Enter with Ctrl, once more for Enter without Shift. */
  function SubmitCount(key: string, ctrl: bool, shift: bool): (n: nat)
    ensures n <= 2
    ensures n > 0 <==> key == "Enter" && (ctrl || !shift)
    ensures n == 2 <==> key == "Enter" && ctrl && !shift
  {
    (if key == "Enter" && ctrl then 1 else 0) + (if key == "Enter" && !shift then 1 else 0)
  }

  /** Two callback traces running side by side: `order[i]` says whether the i-th
      callback to run comes from the first trace. Once either trace is used up the
      other runs on alone; once `order` is used up the first trace goes first. */
  function Merge<T>(a: seq<T>, b: seq<T>, order: seq<bool>): seq<T>
    decreases |a| + |b|
  {
    if a == [] then b
    else if b == [] then a
    else
      var rest := if order == [] then [] else order[1..];
      if order == [] || order[0] then [a[0]] + Merge(a[1..], b, rest)
      else [b[0]] + Merge(a, b[1..], rest)
  }

  /** One more element in front of a sequence whose multiset is `s`'s plus `other`. */
  lemma ConsLeft<T>(x: T, m: seq<T>, s: seq<T>, other: multiset<T>)
    requires multiset(m) == multiset(s) + other
    ensures multiset([x] + m) == multiset([x] + s) + other
  {
  }

  /** One more element in front of a sequence whose multiset is `other` plus `s`'s. */
  lemma ConsRight<T>(x: T, m: seq<T>, other: multiset<T>, s: seq<T>)
    requires multiset(m) == other + multiset(s)
    ensures multiset([x] + m) == other + multiset([x] + s)
  {
  }

  /** Running two traces side by side runs every callback of each exactly once. */
  lemma {:induction false} MergeMultiset<T>(a: seq<T>, b: seq<T>, order: seq<bool>)
    ensures multiset(Merge(a, b, order)) == multiset(a) + multiset(b)
    decreases |a| + |b|, 1
  {
    if a == [] {
      assert Merge(a, b, order) == b;
    } else if b == [] {
      assert Merge(a, b, order) == a;
    } else if order == [] || order[0] {
      MergeMultisetFirst(a, b, order);
    } else {
      MergeMultisetSecond(a, b, order);
    }
  }

  lemma {:induction false} MergeMultisetFirst<T>(a: seq<T>, b: seq<T>, order: seq<bool>)
    requires a != [] && b != [] && (order == [] || order[0])
    ensures multiset(Merge(a, b, order)) == multiset(a) + multiset(b)
    decreases |a| + |b|, 0
  {
    var rest := if order == [] then [] else order[1..];
    var m := Merge(a[1..], b, rest);
    assert Merge(a, b, order) == [a[0]] + m;
    MergeMultiset(a[1..], b, rest);
    ConsLeft(a[0], m, a[1..], multiset(b));
    assert a == [a[0]] + a[1..];
  }

  lemma {:induction false} MergeMultisetSecond<T>(a: seq<T>, b: seq<T>, order: seq<bool>)
    requires a != [] && b != [] && !(order == [] || order[0])
    ensures multiset(Merge(a, b, order)) == multiset(a) + multiset(b)
    decreases |a| + |b|, 0
  {
    var m := Merge(a, b[1..], order[1..]);
    assert Merge(a, b, order) == [b[0]] + m;
    MergeMultiset(a, b[1..], order[1..]);
    ConsRight(b[0], m, multiset(a), b[1..]);
    assert b == [b[0]] + b[1..];
  }

  /** When the first trace is always chosen, it runs to its end before the second
      starts. */
  lemma {:induction false} MergeSequential<T>(a: seq<T>, b: seq<T>, order: seq<bool>)
    requires forall i :: 0 <= i < |order| ==> order[i]
    ensures Merge(a, b, order) == a + b
    decreases |a|
  {
    if a != [] && b != [] {
      var rest := if order == [] then [] else order[1..];
      MergeSequential(a[1..], b, rest);
      assert a == [a[0]] + a[1..];
    }
  }

  /** Putting the same callback in front of two traces keeps the relation between
      their `onMessage` texts. */
  lemma ChunksConsBoth(c: Callback, m: seq<Callback>, s: seq<Callback>, other: multiset<string>)
    requires multiset(Chunks(m)) == multiset(Chunks(s)) + other
    ensures multiset(Chunks([c] + m)) == multiset(Chunks([c] + s)) + other
  {
    ChunksAppend([c], m);
    ChunksAppend([c], s);
  }

  /** The `onMessage` texts of two traces run side by side are those of both traces,
      each exactly once. */
  lemma {:induction false} MergeChunks(a: seq<Callback>, b: seq<Callback>, order: seq<bool>)
    ensures multiset(Chunks(Merge(a, b, order))) == multiset(Chunks(a)) + multiset(Chunks(b))
    decreases |a| + |b|, 1
  {
    if a == [] {
      assert Chunks(a) == [];
    } else if b == [] {
      assert Chunks(b) == [];
    } else if order == [] || order[0] {
      MergeChunksFirst(a, b, order);
    } else {
      MergeChunksSecond(a, b, order);
    }
  }

  lemma {:induction false} MergeChunksFirst(a: seq<Callback>, b: seq<Callback>, order: seq<bool>)
    requires a != [] && b != [] && (order == [] || order[0])
    ensures multiset(Chunks(Merge(a, b, order))) == multiset(Chunks(a)) + multiset(Chunks(b))
    decreases |a| + |b|, 0
  {
    var rest := if order == [] then [] else order[1..];
    var m := Merge(a[1..], b, rest);
    assert Merge(a, b, order) == [a[0]] + m;
    MergeChunks(a[1..], b, rest);
    ChunksConsBoth(a[0], m, a[1..], multiset(Chunks(b)));
    assert a == [a[0]] + a[1..];
  }

  lemma {:induction false} MergeChunksSecond(a: seq<Callback>, b: seq<Callback>, order: seq<bool>)
    requires a != [] && b != [] && !(order == [] || order[0])
    ensures multiset(Chunks(Merge(a, b, order))) == multiset(Chunks(a)) + multiset(Chunks(b))
    decreases |a| + |b|, 0
  {
    var rest := order[1..];
    var m := Merge(a, b[1..], rest);
    assert Merge(a, b, order) == [b[0]] + m;
    MergeChunks(a, b[1..], rest);
    var ca := multiset(Chunks(a));
    assert multiset(Chunks(m)) == multiset(Chunks(b[1..])) + ca;
    ChunksConsBoth(b[0], m, b[1..], ca);
    assert b == [b[0]] + b[1..];
  }

  /** The text the last assistant entry collects when two sends with the same
      `sessionArg` stream at once, their callbacks running in `order`. */
  function OverlapReply(first: Env, second: Env, sessionArg: int, order: seq<bool>): string {
    Concat(Chunks(Merge(SendTrace(first, sessionArg), SendTrace(second, sessionArg), order)))
  }

  /** The entries two overlapping sends of `text` leave: both user entries and both
      placeholders are appended before any reply arrives, and every streamed chunk
      goes to the last entry, so the first placeholder stays empty. */
  function Overlapped(text: string, first: Env, second: Env, streamed: string): Transcript {
    [ UserEntry(text, first.now, first.stamp), AssistantEntry("", first.now, first.stamp),
      UserEntry(text, second.now, second.stamp), AssistantEntry(streamed, second.now, second.stamp) ]
  }

  /** Every message of either reply reaches the last entry exactly once. */
  lemma OverlapPieces(first: Env, second: Env, sessionArg: int, order: seq<bool>)
    ensures multiset(Chunks(Merge(SendTrace(first, sessionArg), SendTrace(second, sessionArg), order)))
         == multiset(ReplyPieces(first)) + multiset(ReplyPieces(second))
  {
    MergeChunks(SendTrace(first, sessionArg), SendTrace(second, sessionArg), order);
    SendTraceChunks(first, sessionArg);
    SendTraceChunks(second, sessionArg);
  }

  /** When the first stream ends before the second starts, the last entry holds the
      first reply followed by the second. */
  lemma OverlapInOrder(first: Env, second: Env, sessionArg: int)
    ensures OverlapReply(first, second, sessionArg, []) == Reply(first) + Reply(second)
  {
    var a, b := SendTrace(first, sessionArg), SendTrace(second, sessionArg);
    MergeSequential(a, b, []);
    ChunksAppend(a, b);
    SendTraceChunks(first, sessionArg);
    SendTraceChunks(second, sessionArg);
    ConcatAppend(ReplyPieces(first), ReplyPieces(second));
  }

  /** The session after two sends that carry the same id: that id once either stream
      completes, the session as it was otherwise. */
  lemma SessionAfterBoth(sessionId: Option<int>, first: Env, second: Env)
    ensures SessionAfter(SessionAfter(sessionId, first), second)
         == if Completes(first) || Completes(second) then Some(SessionArg(sessionId)) else sessionId
  {
  }

  /** The session after two overlapping sends' callbacks, in any order. */
  lemma OverlapSession(sessionId: Option<int>, first: Env, second: Env, order: seq<bool>)
    ensures var arg := SessionArg(sessionId);
            LastDone(sessionId, Merge(SendTrace(first, arg), SendTrace(second, arg), order))
            == SessionAfter(SessionAfter(sessionId, first), second)
  {
    var arg := SessionArg(sessionId);
    var a, b := SendTrace(first, arg), SendTrace(second, arg);
    var merged := Merge(a, b, order);
    SendTraceDone(first, arg);
    SendTraceDone(second, arg);
    MergeMultiset(a, b, order);
    assert forall c :: c in merged <==> c in a || c in b by {
      forall c
        ensures c in merged <==> c in a || c in b
      {
        assert c in merged <==> c in multiset(merged);
      }
    }
    LastDoneUniform(sessionId, merged, arg);
    SessionAfterBoth(sessionId, first, second);
  }

  /** Replaying two overlapping sends' callbacks over the four entries they appended. */
  lemma ReplayOverlap(earlier: Transcript, sessionId: Option<int>, text: string,
                      first: Env, second: Env, order: seq<bool>)
    ensures var arg := SessionArg(sessionId);
            Replay(earlier + [UserEntry(text, first.now, first.stamp)]
                     + [AssistantEntry("", first.now, first.stamp)]
                     + [UserEntry(text, second.now, second.stamp)]
                     + [AssistantEntry("", second.now, second.stamp)],
                   sessionId, Merge(SendTrace(first, arg), SendTrace(second, arg), order))
            == (earlier + Overlapped(text, first, second, OverlapReply(first, second, arg, order)),
                SessionAfter(SessionAfter(sessionId, first), second))
  {
    var arg := SessionArg(sessionId);
    var merged := Merge(SendTrace(first, arg), SendTrace(second, arg), order);
    var before := earlier + [UserEntry(text, first.now, first.stamp)]
                    + [AssistantEntry("", first.now, first.stamp)]
                    + [UserEntry(text, second.now, second.stamp)];
    var placeholder := AssistantEntry("", second.now, second.stamp);
    var streamed := OverlapReply(first, second, arg, order);
    ReplayAll(before + [placeholder], sessionId, merged);
    PlaceholderCollects(before, placeholder, Chunks(merged));
    assert before + [placeholder.(content := streamed)] == earlier + Overlapped(text, first, second, streamed);
    OverlapSession(sessionId, first, second, order);
  }

  /** The page: the text box contents and the provider it talks to. */
  class Page {
    var input: string
    const chat: ChatState

    constructor (chat: ChatState)
      ensures input == "" && this.chat == chat
    {
      input := "";
      this.chat := chat;
    }

    /** The page's `handleSendMessage(content)` up to its `await`, with `loading` and
        `session` as its render saw them: refused on blank content or while loading;
        otherwise loading is set, the user entry and an empty assistant entry are
        appended, and the request goes out with `session || 0`. Returns whether the
        send started and the callbacks the awaited call makes. */
    method StartSend(content: string, loading: bool, session: Option<int>, env: Env)
      returns (started: bool, calls: seq<Callback>)
      modifies chat
      ensures started == Admits(content, loading)
      ensures !started ==> calls == [] && unchanged(chat)
      ensures started ==>
                && chat.messages == old(chat.messages) + [UserEntry(content, env.now, env.stamp)]
                                      + [AssistantEntry("", env.now, env.stamp)]
                && chat.sessionId == old(chat.sessionId)
                && chat.isLoading
                && calls == SendTrace(env, SessionArg(session))
    {
      if Trim(content) == "" || loading {
        return false, [];
      }
      chat.isLoading := true;
      chat.messages := chat.messages + [UserEntry(content, env.now, env.stamp)];
      chat.messages := chat.messages + [AssistantEntry("", env.now, env.stamp)];
      var request, error;
      request, calls, error := SendChatMessage(env.token, content, SessionArg(session), env.response);
      started := true;
    }

    /** `handleSubmit` with its render's text box contents, loading flag and session:
        refused when the text is blank or a send is under way; otherwise the send of
        the untrimmed text starts and the text box is cleared. */
    method HandleSubmit(rendered: string, loading: bool, session: Option<int>, env: Env)
      returns (started: bool, calls: seq<Callback>)
      modifies this, chat
      ensures started == Admits(rendered, loading)
      ensures !started ==> calls == [] && unchanged(this, chat)
      ensures started ==>
                && input == ""
                && chat.messages == old(chat.messages) + [UserEntry(rendered, env.now, env.stamp)]
                                      + [AssistantEntry("", env.now, env.stamp)]
                && chat.sessionId == old(chat.sessionId)
                && chat.isLoading
                && calls == SendTrace(env, SessionArg(session))
    {
      if Trim(rendered) == "" || loading {
        return false, [];
      }
      started, calls := StartSend(rendered, loading, session, env);
      input := "";
    }

    /** What runs after the handler once the started sends resume: their callbacks, in
        the order they arrive, then the `finally` that clears loading. */
    method Settle(calls: seq<Callback>)
      modifies chat
      ensures (chat.messages, chat.sessionId) == Replay(old(chat.messages), old(chat.sessionId), calls)
      ensures !chat.isLoading
    {
      chat.RunCallbacks(calls);
      chat.isLoading := false;
    }

    /** The form's submit: one send of the text box contents, from start to end. */
    method SubmitForm(env: Env)
      modifies this, chat
      ensures !Admits(old(input), old(chat.isLoading)) ==> unchanged(this, chat)
      ensures Admits(old(input), old(chat.isLoading)) ==>
                && input == ""
                && chat.messages == old(chat.messages) + Exchange(old(input), env)
                && chat.sessionId == SessionAfter(old(chat.sessionId), env)
                && !chat.isLoading
    {
      var rendered, loading, session := input, chat.isLoading, chat.sessionId;
      var started, calls := HandleSubmit(rendered, loading, session, env);
      if started {
        Settle(calls);
        ReplaySend(old(chat.messages), session, rendered, env, calls);
      }
    }

    /** `handleKeyDown`: `handleSubmit` for Enter with Ctrl and again for Enter without
        Shift, both from the same render. For Ctrl+Enter without Shift both sends are
        admitted and start before either reply arrives; `first` and `second` are what
        each send meets and `order` how their callbacks interleave. */
    method HandleKeyDown(key: string, ctrl: bool, shift: bool, first: Env, second: Env, order: seq<bool>)
      modifies this, chat
      ensures SubmitCount(key, ctrl, shift) == 0 || !Admits(old(input), old(chat.isLoading)) ==>
                unchanged(this, chat)
      ensures SubmitCount(key, ctrl, shift) == 1 && Admits(old(input), old(chat.isLoading)) ==>
                && input == ""
                && chat.messages == old(chat.messages) + Exchange(old(input), first)
                && chat.sessionId == SessionAfter(old(chat.sessionId), first)
                && !chat.isLoading
      ensures SubmitCount(key, ctrl, shift) == 2 && Admits(old(input), old(chat.isLoading)) ==>
                && input == ""
                && chat.messages
                   == old(chat.messages)
                      + Overlapped(old(input), first, second,
                                   OverlapReply(first, second, SessionArg(old(chat.sessionId)), order))
                && chat.sessionId == SessionAfter(SessionAfter(old(chat.sessionId), first), second)
                && !chat.isLoading
    {
      var rendered, loading, session := input, chat.isLoading, chat.sessionId;
      var started := false;
      var pending: seq<Callback> := [];
      if key == "Enter" && ctrl {
        started, pending := HandleSubmit(rendered, loading, session, first);
      }
      if key == "Enter" && !shift {
        var env := if key == "Enter" && ctrl then second else first;
        var again, calls := HandleSubmit(rendered, loading, session, env);
        started := started || again;
        pending := Merge(pending, calls, order);
      }
      if started {
        Settle(pending);
        if key == "Enter" && ctrl && !shift {
          ReplayOverlap(old(chat.messages), session, rendered, first, second, order);
        } else {
          ReplaySend(old(chat.messages), session, rendered, first, pending);
        }
      }
    }

    /** The New Chat button: the transcript is emptied and the session set to 0, then
        `startNewChat` empties the transcript again and sets the session to null. */
    method NewChat()
      modifies chat
      ensures chat.messages == [] && chat.sessionId == None
      ensures chat.isLoading == old(chat.isLoading)
    {
      chat.messages := [];
      chat.sessionId := Some(0);
      chat.StartNewChat();
    }
  }
}
