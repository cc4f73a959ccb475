/**
 * The conversation store of the streaming backend (backend/main.py): the
 * module-level `conversation_history` dictionary, the get-or-create lookup,
 * the accumulation of streamed chunks into the final answer, the turn commit
 * with its clear-on-overflow rule, deletion and retrieval.
 */
module BackendConversations {
  import opened Wrappers
  import opened Text

  /** LangChain's `HumanMessage` and `AIMessage`. */
  datatype Message = HumanMessage(content: string) | AIMessage(content: string)

  /** A chunk of `on_chat_model_stream`; `content` is None when the chunk has no `content` attribute. */
  datatype Chunk = Chunk(content: Option<string>)

  /** One event of `astream_events`: a model stream chunk, or any other event kind. */
  datatype StreamEvent = ChatModelStream(chunk: Chunk) | OtherEvent(name: string)

  /** What `get_chat_history` returns for one message: its class name and its content. */
  datatype MessageView = MessageView(kind: string, content: string)

  datatype ChatHistoryView = ChatHistoryView(conversationId: string, messages: seq<MessageView>)

  /** A history longer than this after a turn is cleared. */
  const HistoryCap: nat := 20

  const DeletedReply: string := "Conversation deleted."
  const NotFoundReply: string := "Unable to find conversation."

  /** The fragment an event yields to the client, if any: a chunk with non-empty content. */
  function Yielded(event: StreamEvent): Option<string> {
    match event
    case ChatModelStream(Chunk(Some(text))) => if text != "" then Some(text) else None
    case _ => None
  }

  /** The fragments the stream yields, in event order. */
  function Fragments(events: seq<StreamEvent>): (fragments: seq<string>)
    ensures |fragments| <= |events|
    decreases |events|
  {
    if events == [] then []
    else
      var last := events[|events| - 1];
      Fragments(events[..|events| - 1]) + (if Yielded(last).Some? then [Yielded(last).value] else [])
  }

  /** No fragment is empty, and each one is the content of a model stream chunk. */
  lemma {:induction false} FragmentsAreChunkContents(events: seq<StreamEvent>)
    ensures forall f :: f in Fragments(events) ==> f != "" && ChatModelStream(Chunk(Some(f))) in events
    decreases |events|
  {
    if events != [] {
      var init, last := events[..|events| - 1], events[|events| - 1];
      FragmentsAreChunkContents(init);
      assert events == init + [last];
      forall f | f in Fragments(events)
        ensures f != "" && ChatModelStream(Chunk(Some(f))) in events
      {
        if f !in Fragments(init) {
          assert Yielded(last) == Some(f);
        }
      }
    }
  }

  /**
   * The `async for` loop of `stream_tokens`: it yields every non-empty chunk
   * content and appends exactly that piece to `full_response`.
   */
  method AccumulateStream(events: seq<StreamEvent>) returns (fragments: seq<string>, fullResponse: string)
    ensures fragments == Fragments(events)
    ensures fullResponse == Concat(fragments)
    ensures forall i :: 0 <= i < |fragments| ==> fragments[i] != ""
  {
    fragments, fullResponse := [], "";
    for i := 0 to |events|
      invariant fragments == Fragments(events[..i])
      invariant fullResponse == Concat(fragments)
      invariant forall j :: 0 <= j < |fragments| ==> fragments[j] != ""
    {
      assert events[..i + 1][..i] == events[..i];
      var event := events[i];
      if event.ChatModelStream? && event.chunk.content.Some? && event.chunk.content.value != "" {
        var piece := event.chunk.content.value;
        assert (fragments + [piece])[..|fragments|] == fragments;
        fullResponse := fullResponse + piece;
        fragments := fragments + [piece];
      }
    }
    assert events[..|events|] == events;
  }

  /**
   * The tail of `stream_tokens`: append the user's message and the answer,
   * then clear the whole list when it has grown past the cap.
   */
  function CommitTurn(history: seq<Message>, userInput: string, fullResponse: string): (r: seq<Message>)
    ensures r == [] || r == history + [HumanMessage(userInput), AIMessage(fullResponse)]
    ensures r == [] <==> |history| + 2 > HistoryCap
  {
    var appended := history + [HumanMessage(userInput), AIMessage(fullResponse)];
    if |appended| > HistoryCap then [] else appended
  }

  /** Alternating turns: user messages at even positions, answers at odd ones, and whole turns only. */
  predicate Alternating(history: seq<Message>) {
    && |history| % 2 == 0
    && forall i :: 0 <= i < |history| ==> (history[i].HumanMessage? <==> i % 2 == 0)
  }

  /** The store's invariant for one conversation. */
  predicate WellFormedHistory(history: seq<Message>) {
    |history| <= HistoryCap && Alternating(history)
  }

  /** A turn keeps a history within the cap and in alternating order. */
  lemma CommitTurnPreservesWellFormed(history: seq<Message>, userInput: string, fullResponse: string)
    requires WellFormedHistory(history)
    ensures WellFormedHistory(CommitTurn(history, userInput, fullResponse))
  {
  }

  /** Crossing the cap clears the history: a full history of 20 messages is empty after one more turn. */
  lemma FullHistoryIsCleared(history: seq<Message>, userInput: string, fullResponse: string)
    requires |history| >= HistoryCap - 1
    ensures CommitTurn(history, userInput, fullResponse) == []
  {
  }

  /** A run of turns, each a user input and the answer streamed for it; the store's invariant holds throughout. */
  function RunTurns(history: seq<Message>, turns: seq<(string, string)>): (r: seq<Message>)
    ensures WellFormedHistory(history) ==> WellFormedHistory(r)
    decreases |turns|
  {
    if turns == [] then history
    else RunTurns(CommitTurn(history, turns[0].0, turns[0].1), turns[1..])
  }

  /**
   * Starting from m whole turns (m <= 10), after n more turns the history holds
   * 2 * ((m + n) mod 11) messages: it fills up for ten turns and empties on the eleventh.
   */
  lemma {:induction false} RunTurnsLength(history: seq<Message>, turns: seq<(string, string)>)
    requires |history| % 2 == 0 && |history| <= HistoryCap
    ensures |RunTurns(history, turns)| == 2 * ((|history| / 2 + |turns|) % 11)
    decreases |turns|
  {
    if turns != [] {
      var next := CommitTurn(history, turns[0].0, turns[0].1);
      RunTurnsLength(next, turns[1..]);
      var m, n := |history| / 2, |turns|;
      if m < 10 {
        assert |next| / 2 == m + 1;
      } else {
        assert |next| == 0;
        assert (m + n) % 11 == (n - 1) % 11;
      }
    }
  }

  /** So a conversation that starts empty is cleared on every eleventh turn and never holds more than 20 messages. */
  lemma {:induction false} RunTurnsBounded(turns: seq<(string, string)>)
    ensures |RunTurns([], turns)| == 2 * (|turns| % 11)
    ensures |RunTurns([], turns)| <= HistoryCap
  {
    RunTurnsLength([], turns);
  }

  /** Reads one serialized message back: the class its `type` names, with its content. */
  function ParseMessage(view: MessageView): Option<Message> {
    if view.kind == "HumanMessage" then Some(HumanMessage(view.content))
    else if view.kind == "AIMessage" then Some(AIMessage(view.content))
    else None
  }

  /** Reads a serialized history back; None when some entry names neither message class. */
  function Deserialize(views: seq<MessageView>): Option<seq<Message>>
    decreases |views|
  {
    if views == [] then Some([])
    else
      match (ParseMessage(views[0]), Deserialize(views[1..]))
      case (Some(m), Some(rest)) => Some([m] + rest)
      case _ => None
  }

  /** `type(msg).__name__` and `msg.content` for each message, in order: each entry reads back as its message. */
  function Serialize(history: seq<Message>): (views: seq<MessageView>)
    ensures |views| == |history|
    ensures forall i :: 0 <= i < |history| ==> ParseMessage(views[i]) == Some(history[i])
  {
    seq(|history|, i requires 0 <= i < |history| =>
      MessageView(if history[i].HumanMessage? then "HumanMessage" else "AIMessage", history[i].content))
  }

  /** The serialized history determines the history: reading it back gives the messages in order. */
  lemma {:induction false} SerializeRoundTrip(history: seq<Message>)
    ensures Deserialize(Serialize(history)) == Some(history)
    decreases |history|
  {
    if history != [] {
      var views := Serialize(history);
      SerializeRoundTrip(history[1..]);
      assert views[1..] == Serialize(history[1..]) by {
        forall i | 0 <= i < |history| - 1 ensures views[1..][i] == Serialize(history[1..])[i] {
          assert ParseMessage(views[i + 1]) == Some(history[i + 1]);
          assert ParseMessage(Serialize(history[1..])[i]) == Some(history[1..][i]);
        }
      }
      assert [history[0]] + history[1..] == history;
    }
  }

  /** In a stored history the serialized types alternate, starting with `HumanMessage`. */
  lemma SerializeAlternates(history: seq<Message>)
    requires Alternating(history)
    ensures forall i :: 0 <= i < |history| ==> (Serialize(history)[i].kind == "HumanMessage" <==> i % 2 == 0)
  {
    var views := Serialize(history);
    forall i | 0 <= i < |history| ensures views[i].kind == "HumanMessage" <==> i % 2 == 0 {
      assert ParseMessage(views[i]) == Some(history[i]);
    }
  }

  /** The process-wide `conversation_history` dictionary and the operations the routes perform on it. */
  class ConversationStore {
    var histories: map<string, seq<Message>>

    /** Every stored conversation is within the cap and alternates user and answer. */
    ghost predicate Valid()
      reads this
    {
      forall id :: id in histories ==> WellFormedHistory(histories[id])
    }

    /** The history a turn on `id` starts from: the stored one, or a fresh empty list. */
    function HistoryOf(id: string): seq<Message>
      reads this
    {
      if id in histories then histories[id] else []
    }

    constructor ()
      ensures Valid() && histories == map[]
    {
      histories := map[];
    }

    /** `get_conversation_history`: an existing history is returned unchanged; a new id gets an empty one. */
    method GetConversationHistory(id: string) returns (history: seq<Message>)
      requires Valid()
      modifies this
      ensures Valid()
      ensures id in histories && history == histories[id]
      ensures id in old(histories) ==> histories == old(histories) && history == old(histories[id])
      ensures id !in old(histories) ==> histories == old(histories)[id := []] && history == []
    {
      if id !in histories {
        histories := histories[id := []];
      }
      history := histories[id];
    }

    /**
     * `stream_tokens` around the agent: look the history up, stream the
     * answer, then commit the turn to the same conversation. When the event
     * stream raises after `events` (a failing tool call, for one) or the
     * client goes away, the fragments sent so far stay sent, the entry the
     * lookup created stays, and no turn is committed. Other conversations
     * are untouched.
     */
    method StreamTokens(userInput: string, id: string, events: seq<StreamEvent>, streamRaises: bool)
      returns (fragments: seq<string>, fullResponse: string)
      requires Valid()
      modifies this
      ensures Valid()
      ensures fragments == Fragments(events) && fullResponse == Concat(fragments)
      ensures !streamRaises ==> histories == old(histories)[id := CommitTurn(old(HistoryOf(id)), userInput, fullResponse)]
      ensures streamRaises ==> histories == old(histories)[id := old(HistoryOf(id))]
    {
      var chatHistory := GetConversationHistory(id);
      fragments, fullResponse := AccumulateStream(events);
      if streamRaises {
        return;
      }
      CommitTurnPreservesWellFormed(chatHistory, userInput, fullResponse);
      histories := histories[id := CommitTurn(chatHistory, userInput, fullResponse)];
    }

    /** `clear_chat`: delete a known conversation, or report that it is not there and change nothing. */
    method ClearChat(id: string) returns (reply: string)
      requires Valid()
      modifies this
      ensures Valid()
      ensures id in old(histories) ==> histories == old(histories) - {id} && reply == DeletedReply
      ensures id !in old(histories) ==> histories == old(histories) && reply == NotFoundReply
      ensures id !in histories
    {
      if id in histories {
        histories := histories - {id};
        reply := DeletedReply;
      } else {
        reply := NotFoundReply;
      }
    }

    /**
     * `get_chat_history`: the id and its serialized messages. None stands for
     * the `KeyError` the direct lookup raises for an unknown id, which nothing
     * catches, so the request fails with a server error.
     */
    method GetChatHistory(id: string) returns (response: Option<ChatHistoryView>)
      ensures response.None? <==> id !in histories
      ensures response.Some? ==> response.value == ChatHistoryView(id, Serialize(histories[id]))
      ensures response.Some? ==> Deserialize(response.value.messages) == Some(histories[id])
      ensures response.Some? && Valid() ==>
                forall i :: 0 <= i < |response.value.messages| ==>
                  (response.value.messages[i].kind == "HumanMessage" <==> i % 2 == 0)
    {
      if id in histories {
        SerializeRoundTrip(histories[id]);
        if Valid() {
          SerializeAlternates(histories[id]);
        }
        response := Some(ChatHistoryView(id, Serialize(histories[id])));
      } else {
        response := None;
      }
    }
  }
}
