/**
 * The chat-message table as the controllers use it: `Message.create` appends a row and
 * `Message.findAll({ where: { chat_id } })` reads a chat's rows back in the order they were written.
 */
module MessageStore {
  import opened Wrappers
  import Seqs

  /** One row: `type` is "message" or "file"; `title` and `message` may be null. */
  datatype StoredMessage = StoredMessage(
    chatId: string,
    role: string,
    kind: string,
    title: Option<string>,
    message: Option<string>,
    timestamp: int)

  function OfChat(chatId: string): StoredMessage -> bool
  {
    (m: StoredMessage) => m.chatId == chatId
  }

  /** The rows of one chat, oldest first. */
  function ChatHistory(messages: seq<StoredMessage>, chatId: string): (r: seq<StoredMessage>)
    ensures forall k :: 0 <= k < |r| ==> r[k] in messages && r[k].chatId == chatId
    ensures forall k :: 0 <= k < |messages| && messages[k].chatId == chatId ==> messages[k] in r
  {
    Seqs.Filter(messages, OfChat(chatId))
  }

  /** Appending a row of another chat leaves a chat's history as it was; a row of the chat lands at its end. */
  lemma ChatHistoryAppend(messages: seq<StoredMessage>, m: StoredMessage, chatId: string)
    ensures ChatHistory(messages + [m], chatId)
            == ChatHistory(messages, chatId) + (if m.chatId == chatId then [m] else [])
  {
    Seqs.FilterAppend(messages, [m], OfChat(chatId));
    assert [m][1..] == [];
  }

  class MessageLog {
    var messages: seq<StoredMessage>

    constructor ()
      ensures messages == []
    {
      messages := [];
    }

    /** `Message.create`. */
    method Create(m: StoredMessage)
      modifies this
      ensures messages == old(messages) + [m]
    {
      messages := messages + [m];
    }

    /** `Message.findAll` for one chat. */
    function FindAll(chatId: string): seq<StoredMessage>
      reads this
    {
      ChatHistory(messages, chatId)
    }
  }
}
