/** The chat table with structured keys, and the atomic actions the repository performs on it.
    Module Repository shows that the string-keyed table behaves exactly like this one. */
module Store {
  import opened Text
  import opened Time
  import opened Uuids
  import opened Domain
  import opened Sorting

  /** A primary key. The partition is the chat; within it the chat row precedes its messages. */
  datatype Key = ChatKey(chatId: Uuid) | MessageKey(chatId: Uuid, sentAt: Instant, requestId: Uuid, sender: Sender)

  datatype Row = ChatRow(chat: Chat) | MessageRow(message: Message)

  type Table = map<Key, Row>

  function KeyOf(m: Message): Key {
    MessageKey(m.chatId, m.sentAt, m.requestId, m.sender)
  }

  // ----- writes

  /** save_started_chat: three puts, each on the condition that its key is unused, all or nothing. */
  predicate StartAccepted(t: Table, chat: Chat, user: Message, llm: Message) {
    KeyOf(user) != KeyOf(llm) && ChatKey(chat.chatId) !in t && KeyOf(user) !in t && KeyOf(llm) !in t
  }

  /** save_exchange: the chat row must hold the previous version and the same owner, both message keys be unused. */
  predicate ExchangeAccepted(t: Table, chat: Chat, user: Message, llm: Message) {
    && KeyOf(user) != KeyOf(llm)
    && ChatKey(chat.chatId) in t && t[ChatKey(chat.chatId)].ChatRow?
    && t[ChatKey(chat.chatId)].chat.version == chat.version - 1
    && t[ChatKey(chat.chatId)].chat.userId == chat.userId
    && KeyOf(user) !in t && KeyOf(llm) !in t
  }

  function PutTurn(t: Table, chat: Chat, user: Message, llm: Message): Table {
    t[ChatKey(chat.chatId) := ChatRow(chat)][KeyOf(user) := MessageRow(user)][KeyOf(llm) := MessageRow(llm)]
  }

  /** update_title: the chat row must exist and belong to the user. */
  predicate RenameAccepted(t: Table, chatId: Uuid, user: Uuid) {
    ChatKey(chatId) in t && t[ChatKey(chatId)].ChatRow? && t[ChatKey(chatId)].chat.userId == user
  }

  function PutTitle(t: Table, chatId: Uuid, title: string): Table
    requires ChatKey(chatId) in t && t[ChatKey(chatId)].ChatRow?
  {
    t[ChatKey(chatId) := ChatRow(t[ChatKey(chatId)].chat.(title := title))]
  }

  // ----- reads

  function LoadChat(t: Table, chatId: Uuid): Option<Chat> {
    if ChatKey(chatId) in t && t[ChatKey(chatId)].ChatRow? then Some(t[ChatKey(chatId)].chat) else None
  }

  /** Reading order of keys: by partition, then the chat row, then messages by time, request and sender. */
  predicate KeyLess(a: Key, b: Key) {
    a.chatId < b.chatId || (a.chatId == b.chatId && SortLess(a, b))
  }

  predicate SortLess(a: Key, b: Key) {
    b.MessageKey? && (a.ChatKey? || a.sentAt < b.sentAt || (a.sentAt == b.sentAt && (
      a.requestId < b.requestId || (a.requestId == b.requestId && a.sender == User && b.sender == Llm))))
  }

  lemma KeyOrderIsTotal()
    ensures StrictTotal(KeyLess)
  {
    assert Transitive(KeyLess) by {
      forall x, y, z | KeyLess(x, y) && KeyLess(y, z) ensures KeyLess(x, z) {
      }
    }
    forall x, y: Key | x != y ensures KeyLess(x, y) || KeyLess(y, x) {
    }
  }

  function Partition(t: Table, chatId: Uuid): set<Key> {
    set k | k in t && k.chatId == chatId
  }

  function MessageKeys(t: Table, chatId: Uuid): set<Key> {
    set k | k in t && k.chatId == chatId && k.MessageKey?
  }

  /** list_messages_by_chat_id: the keys of a chat's messages in reading order. */
  ghost function ListMessages(t: Table, chatId: Uuid): seq<Key> {
    KeyOrderIsTotal();
    InOrder(MessageKeys(t, chatId), KeyLess)
  }

  // ----- how many keys a chat can have

  const SPAN: int := 0x1_0000_0000_0000_0000_0000_0000_0000_0000
  const RANKS: int := 1 + DAYS * MICROS_PER_DAY * SPAN * 2

  function Rank(k: Key): int {
    match k
    case ChatKey(_) => 0
    case MessageKey(_, sentAt, requestId, sender) =>
      1 + (sentAt * SPAN + requestId) * 2 + (if sender == User then 0 else 1)
  }

  lemma RankOrder(a: Key, b: Key)
    ensures 0 <= Rank(a) < RANKS
    ensures a.chatId == b.chatId && KeyLess(a, b) ==> Rank(a) < Rank(b)
  {
  }
}
