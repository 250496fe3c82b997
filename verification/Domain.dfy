/** The chat aggregate: values, its rules, and the mutable object that applies them. */
module Domain {
  import opened Text
  import opened Time
  import opened Uuids
  import opened Citations

  const CONTINUATION_LIMIT: int := 24 * 3600 * 1_000_000

  datatype Sender = User | Llm

  datatype Message = Message(chatId: Uuid, requestId: Uuid, sender: Sender, content: string, sentAt: Instant,
                             citations: seq<Citation>)

  datatype Chat = Chat(chatId: Uuid, sessionId: string, title: string, userId: Uuid, createdAt: Instant,
                       lastUpdatedAt: Instant, version: nat)

  datatype DomainError = InvalidSessionId | InvalidChatTurn | MessageSentAtOutOfOrder | ContinuationExpired
    | OwnershipMismatch

  datatype Result<+T, +E> = Ok(value: T) | Err(error: E)

  function UserMessage(chatId: Uuid, requestId: Uuid, prompt: string, sentAt: Instant): Message {
    Message(chatId, requestId, User, prompt, sentAt, [])
  }

  /** The characters that str.strip removes. */
  predicate IsSpace(c: char) {
    '\U{0009}' <= c <= '\U{000D}' || '\U{001C}' <= c <= '\U{0020}' || c == '\U{0085}' || c == '\U{00A0}' ||
      c == '\U{1680}'
    || '\U{2000}' <= c <= '\U{200A}' || c == '\U{2028}' || c == '\U{2029}' || c == '\U{202F}' || c == '\U{205F}' ||
       c == '\U{3000}'
  }

  predicate IsBlank(s: string) {
    forall i | 0 <= i < |s| :: IsSpace(s[i])
  }

  /** The message's citations can be written to the table. */
  predicate StorableMessage(m: Message) {
    StorableCitations(m.citations)
  }

  function CreateChat(chatId: Uuid, sessionId: string, title: string, userId: Uuid,
                      answeredAt: Instant): Result<Chat, DomainError> {
    if IsBlank(sessionId) then Err(InvalidSessionId)
    else Ok(Chat(chatId, sessionId, title, userId, answeredAt, answeredAt, 0))
  }

  predicate IsTurnPair(chatId: Uuid, user: Message, llm: Message) {
    user.chatId == chatId && llm.chatId == chatId && user.requestId == llm.requestId && user.sender == User &&
      llm.sender == Llm
  }

  function StartedTurnError(chat: Chat, user: Message, llm: Message): Option<DomainError> {
    if !IsTurnPair(chat.chatId, user, llm) then Some(InvalidChatTurn)
    else if user.sentAt > llm.sentAt then Some(MessageSentAtOutOfOrder)
    else if llm.sentAt != chat.createdAt || llm.sentAt != chat.lastUpdatedAt then Some(MessageSentAtOutOfOrder)
    else None
  }

  function RecordExchange(chat: Chat, user: Message, llm: Message): Result<Chat, DomainError> {
    if !IsTurnPair(chat.chatId, user, llm) then Err(InvalidChatTurn)
    else if user.sentAt < chat.lastUpdatedAt then Err(MessageSentAtOutOfOrder)
    else if llm.sentAt < user.sentAt then Err(MessageSentAtOutOfOrder)
    else Ok(chat.(lastUpdatedAt := llm.sentAt, version := chat.version + 1))
  }

  predicate ContinuableAt(chat: Chat, requestedAt: Instant) {
    requestedAt - chat.lastUpdatedAt <= CONTINUATION_LIMIT
  }

  /** The aggregate as the program holds it: one object whose fields record_exchange assigns. */
  class ChatObject {
    const chatId: Uuid
    const sessionId: string
    const title: string
    const userId: Uuid
    const createdAt: Instant
    var lastUpdatedAt: Instant
    var version: nat

    function View(): Chat
      reads this
    {
      Chat(chatId, sessionId, title, userId, createdAt, lastUpdatedAt, version)
    }

    constructor (chat: Chat)
      ensures View() == chat
    {
      chatId := chat.chatId;
      sessionId := chat.sessionId;
      title := chat.title;
      userId := chat.userId;
      createdAt := chat.createdAt;
      lastUpdatedAt := chat.lastUpdatedAt;
      version := chat.version;
    }

    method EnsureOwnedBy(user: Uuid) returns (error: Option<DomainError>)
      ensures error == if userId == user then None else Some(OwnershipMismatch)
    {
      error := None;
      if userId != user {
        error := Some(OwnershipMismatch);
      }
    }

    /** At most 24 hours after the last update. */
    method EnsureContinuableAt(requestedAt: Instant) returns (error: Option<DomainError>)
      ensures error == if ContinuableAt(View(), requestedAt) then None else Some(ContinuationExpired)
      ensures error == None <==> requestedAt <= lastUpdatedAt + 86_400_000_000
    {
      error := None;
      if requestedAt - lastUpdatedAt > CONTINUATION_LIMIT {
        error := Some(ContinuationExpired);
      }
    }

    /** A turn is accepted exactly when its messages are a pair of this chat, the question is not before the last
        update and the answer not before the question. Rejected turns leave the object as it was. */
    method RecordTurn(user: Message, llm: Message) returns (error: Option<DomainError>)
      modifies this
      ensures error == Some(InvalidChatTurn) <==>
                !(user.chatId == llm.chatId == chatId && user.requestId == llm.requestId && user.sender == User &&
                  llm.sender == Llm)
      ensures error == None <==> error != Some(InvalidChatTurn) && old(lastUpdatedAt) <= user.sentAt <= llm.sentAt
      ensures error == None || error == Some(InvalidChatTurn) || error == Some(MessageSentAtOutOfOrder)
      ensures error == None ==> lastUpdatedAt == llm.sentAt && version == old(version) + 1
      ensures error != None ==> lastUpdatedAt == old(lastUpdatedAt) && version == old(version)
      ensures match RecordExchange(old(View()), user, llm)
              case Ok(chat) => error == None && View() == chat
              case Err(e) => error == Some(e) && View() == old(View())
    {
      if user.chatId != chatId || llm.chatId != chatId || user.requestId != llm.requestId || user.sender != User ||
        llm.sender != Llm {
        return Some(InvalidChatTurn);
      }
      if user.sentAt < lastUpdatedAt {
        return Some(MessageSentAtOutOfOrder);
      }
      if llm.sentAt < user.sentAt {
        return Some(MessageSentAtOutOfOrder);
      }
      lastUpdatedAt := llm.sentAt;
      version := version + 1;
      error := None;
    }
  }
}
