/** The message list `generateResponse` hands to the completion backend (src/services/responseService.ts). */
module ResponseService {
  import Seqs

  /** The role stored with a history entry; anything but `user` and `ai` is `Other`. */
  datatype Role = User | Ai | Other(name: string)

  /** One stored turn of the conversation; the empty message is JavaScript's falsy string. */
  datatype HistoryEntry = HistoryEntry(role: Role, message: string)

  /** A message in the completion request. */
  datatype ChatMessage = ChatMessage(role: string, content: string)

  /** A history entry is forwarded when its role is `user` or `ai` and its message is non-empty. */
  predicate Forwarded(entry: HistoryEntry)
  {
    (entry.role == User || entry.role == Ai) && entry.message != ""
  }

  /** `ai` is sent as `assistant`; `user` stays `user`. */
  function AsMessage(entry: HistoryEntry): ChatMessage
  {
    ChatMessage(if entry.role == User then "user" else "assistant", entry.message)
  }

  /** The messages the history contributes, in history order. */
  function HistoryMessages(history: seq<HistoryEntry>): seq<ChatMessage>
  {
    if history == [] then []
    else
      var last := history[|history| - 1];
      HistoryMessages(history[..|history| - 1]) + (if Forwarded(last) then [AsMessage(last)] else [])
  }

  /** The optional final user turn. */
  function Trailer(userMessage: string): seq<ChatMessage>
  {
    if userMessage != "" then [ChatMessage("user", userMessage)] else []
  }

  /**
   * The message list of `generateResponse`: the system prompt, then each forwarded history entry,
   * then the user's message when it is non-empty.
   */
  method BuildMessages(systemPrompt: string, history: seq<HistoryEntry>, userMessage: string)
    returns (messages: seq<ChatMessage>)
    ensures messages == [ChatMessage("system", systemPrompt)] + HistoryMessages(history) + Trailer(userMessage)
  {
    messages := [ChatMessage("system", systemPrompt)];
    for i := 0 to |history|
      invariant messages == [ChatMessage("system", systemPrompt)] + HistoryMessages(history[..i])
    {
      var chat := history[i];
      assert history[..i + 1][..i] == history[..i];
      if chat.role == User && chat.message != "" {
        messages := messages + [ChatMessage("user", chat.message)];
      } else if chat.role == Ai && chat.message != "" {
        messages := messages + [ChatMessage("assistant", chat.message)];
      }
    }
    assert history[..|history|] == history;
    if userMessage != "" {
      messages := messages + [ChatMessage("user", userMessage)];
    }
  }

  /** The history's messages are exactly the forwarded entries, converted, in order. */
  lemma {:induction false} HistoryMessagesAreForwarded(history: seq<HistoryEntry>)
    ensures |HistoryMessages(history)| == |Seqs.Filter(history, Forwarded)|
    ensures forall k :: 0 <= k < |HistoryMessages(history)| ==>
              HistoryMessages(history)[k] == AsMessage(Seqs.Filter(history, Forwarded)[k])
  {
    if history != [] {
      var init, last := history[..|history| - 1], history[|history| - 1];
      HistoryMessagesAreForwarded(init);
      assert history == init + [last];
      Seqs.FilterAppend(init, [last], Forwarded);
      assert Seqs.Filter([last], Forwarded) == if Forwarded(last) then [last] else [] by {
        assert [last][1..] == [];
      }
    }
  }

  /** Every history message has role `user` or `assistant` and non-empty content. */
  lemma {:induction false} HistoryMessageRoles(history: seq<HistoryEntry>)
    ensures forall m :: m in HistoryMessages(history) ==>
              (m.role == "user" || m.role == "assistant") && m.content != ""
  {
    if history != [] {
      HistoryMessageRoles(history[..|history| - 1]);
    }
  }

  /**
   * The list starts with the system prompt, has one entry per forwarded turn plus the optional
   * user turn, and ends with the user's message exactly when that message is non-empty.
   */
  lemma MessageListShape(systemPrompt: string, history: seq<HistoryEntry>, userMessage: string)
    ensures var messages := [ChatMessage("system", systemPrompt)] + HistoryMessages(history) + Trailer(userMessage);
            && messages[0] == ChatMessage("system", systemPrompt)
            && |messages| == 1 + |Seqs.Filter(history, Forwarded)| + (if userMessage != "" then 1 else 0)
            && (messages[|messages| - 1] == ChatMessage("user", userMessage) <==> userMessage != "")
  {
    HistoryMessagesAreForwarded(history);
    HistoryMessageRoles(history);
    var hs := HistoryMessages(history);
    if userMessage == "" && hs != [] {
      assert hs[|hs| - 1] in hs;
    }
  }
}
