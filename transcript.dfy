/**
 * The chat transcript: its entries, the chunk updater that streams text into the
 * assistant's last entry, and the expansion of stored session history into
 * alternating user / assistant entries.
 */
module Transcript {
  import opened JsString

  datatype Role = User | Assistant

  /** One entry of the transcript (`ChatMessage`). */
  datatype Message = Message(id: int, content: string, createdAt: string, role: Role)

  type Transcript = seq<Message>

  /** A stored exchange as the history endpoint returns it (`SessionMessage`). */
  datatype SessionRecord = SessionRecord(id: int, userMessage: string, aiMessage: string)

  /** The last entry is an assistant entry: the only case the chunk updater touches. */
  predicate EndsWithAssistant(msgs: Transcript) {
    msgs != [] && msgs[|msgs| - 1].role == Assistant
  }

  /** The chunk updater: `chunk` appended to the content of the last entry when that
      entry is an assistant entry; otherwise the transcript comes back as it was. */
  function AppendChunk(msgs: Transcript, chunk: string): (r: Transcript)
    ensures |r| == |msgs|
    ensures EndsWithAssistant(r) <==> EndsWithAssistant(msgs)
    ensures !EndsWithAssistant(msgs) ==> r == msgs
    ensures EndsWithAssistant(msgs) ==>
              && r[..|r| - 1] == msgs[..|msgs| - 1]
              && var last, last' := msgs[|msgs| - 1], r[|r| - 1];
                 last'.content == last.content + chunk
                 && last'.id == last.id && last'.createdAt == last.createdAt && last'.role == last.role
  {
    if EndsWithAssistant(msgs) then
      var n := |msgs| - 1;
      msgs[n := msgs[n].(content := msgs[n].content + chunk)]
    else
      msgs
  }

  /** The chunk updater applied for each chunk in order. */
  function ApplyChunks(msgs: Transcript, chunks: seq<string>): Transcript {
    if chunks == [] then msgs
    else AppendChunk(ApplyChunks(msgs, chunks[..|chunks| - 1]), chunks[|chunks| - 1])
  }

  /** Appending an empty chunk changes nothing. */
  lemma AppendEmptyChunk(msgs: Transcript)
    ensures AppendChunk(msgs, "") == msgs
  {
    if EndsWithAssistant(msgs) {
      var n := |msgs| - 1;
      assert msgs[n].content + "" == msgs[n].content;
    }
  }

  /** Two chunks in a row have the effect of their concatenation. */
  lemma AppendChunkTwice(msgs: Transcript, a: string, b: string)
    ensures AppendChunk(AppendChunk(msgs, a), b) == AppendChunk(msgs, a + b)
  {
    if EndsWithAssistant(msgs) {
      var n := |msgs| - 1;
      assert msgs[n].content + a + b == msgs[n].content + (a + b);
    }
  }

  /** Streaming is append-only and indifferent to chunking: updating chunk by chunk
      gives the transcript that one update with all the text would give. */
  lemma {:induction false} ApplyChunksConcat(msgs: Transcript, chunks: seq<string>)
    ensures ApplyChunks(msgs, chunks) == AppendChunk(msgs, Concat(chunks))
    decreases |chunks|
  {
    if chunks == [] {
      AppendEmptyChunk(msgs);
    } else {
      var init := chunks[..|chunks| - 1];
      ApplyChunksConcat(msgs, init);
      AppendChunkTwice(msgs, Concat(init), chunks[|chunks| - 1]);
    }
  }

  /** The streamed placeholder: a transcript ending in an assistant entry with content
      `""` ends, after chunks c1..cn, with content c1 + ... + cn; nothing before it changes. */
  lemma PlaceholderCollects(earlier: Transcript, placeholder: Message, chunks: seq<string>)
    requires placeholder.role == Assistant && placeholder.content == ""
    ensures ApplyChunks(earlier + [placeholder], chunks) == earlier + [placeholder.(content := Concat(chunks))]
  {
    var msgs := earlier + [placeholder];
    ApplyChunksConcat(msgs, chunks);
    var r := AppendChunk(msgs, Concat(chunks));
    assert msgs[..|msgs| - 1] == earlier;
    assert r == r[..|r| - 1] + [r[|r| - 1]];
  }

  /** The user entry a send appends first, with the content as typed. */
  function UserEntry(content: string, now: int, stamp: string): Message
  {
    Message(now, content, stamp, User)
  }

  /** The assistant entry a send appends second, one id above the user entry. */
  function AssistantEntry(content: string, now: int, stamp: string): Message
  {
    Message(now + 1, content, stamp, Assistant)
  }

  /** `msg.id || Date.now()`: a zero id is replaced by the clock reading. */
  function EntryId(record: SessionRecord, now: int): int
  {
    if record.id != 0 then record.id else now
  }

  /** The two entries one stored exchange becomes. */
  predicate IsExchange(record: SessionRecord, now: int, stamp: string, user: Message, ai: Message) {
    && user == Message(EntryId(record, now), record.userMessage, stamp, User)
    && ai == Message(EntryId(record, now), record.aiMessage, stamp, Assistant)
  }

  /** The history expansion of `loadSessionMessages`: for every record in order, its
      user entry and then its assistant entry, both with the record's id. */
  method ExpandHistory(records: seq<SessionRecord>, now: int, stamp: string)
    returns (entries: Transcript)
    ensures |entries| == 2 * |records|
    ensures forall i :: 0 <= i < |records| ==>
              IsExchange(records[i], now, stamp, entries[2 * i], entries[2 * i + 1])
  {
    entries := [];
    for i := 0 to |records|
      invariant |entries| == 2 * i
      invariant forall j :: 0 <= j < i ==>
                  IsExchange(records[j], now, stamp, entries[2 * j], entries[2 * j + 1])
    {
      var record := records[i];
      var id := EntryId(record, now);
      entries := entries + [Message(id, record.userMessage, stamp, User)];
      entries := entries + [Message(id, record.aiMessage, stamp, Assistant)];
    }
  }

  /** Expanded history alternates roles, starting with the user. */
  lemma ExpandedRolesAlternate(records: seq<SessionRecord>, now: int, stamp: string, entries: Transcript)
    requires |entries| == 2 * |records|
    requires forall i :: 0 <= i < |records| ==>
               IsExchange(records[i], now, stamp, entries[2 * i], entries[2 * i + 1])
    ensures forall k :: 0 <= k < |entries| ==> (entries[k].role == User <==> k % 2 == 0)
  {
    forall k | 0 <= k < |entries|
      ensures entries[k].role == User <==> k % 2 == 0
    {
      var i := k / 2;
      assert IsExchange(records[i], now, stamp, entries[2 * i], entries[2 * i + 1]);
    }
  }
}
