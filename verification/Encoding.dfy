/** The attribute texts of the chat table: primary keys, index keys and items, and reading them back. */
module Encoding {
  import opened Text
  import opened Time
  import opened Uuids
  import opened Citations
  import opened Domain
  import opened Store

  datatype PrimaryKey = PrimaryKey(pk: string, sk: string)

  datatype Item =
    | ChatItem(chatId: string, sessionId: string, title: string, userId: string, createdAt: string,
               lastUpdatedAt: string,
               version: nat, gsi1pk: string, gsi1sk: string)
    | MessageItem(chatId: string, requestId: string, sender: string, content: string, citations: Attribute,
                  sentAt: string)

  // ----- keys

  const CHAT_SORT_KEY := "CHAT"
  const MESSAGE_PREFIX := "MESSAGE#"

  function ChatPk(c: Uuid): string {
    "CHAT#" + UuidText(c)
  }

  function UserPk(u: Uuid): string {
    "USER#" + UuidText(u)
  }

  function SenderOrder(s: Sender): string {
    if s == User then "0" else "1"
  }

  function SenderText(s: Sender): string {
    if s == User then "user" else "llm"
  }

  function MessageTail(requestId: Uuid, sender: Sender): string {
    "#" + (UuidText(requestId) + ("#" + SenderOrder(sender)))
  }

  function SortKey(k: Key): string {
    match k
    case ChatKey(_) => CHAT_SORT_KEY
    case MessageKey(_, sentAt, requestId, sender) =>
      MESSAGE_PREFIX + (FormatInstant(sentAt) + MessageTail(requestId, sender))
  }

  function Encode(k: Key): PrimaryKey {
    PrimaryKey(ChatPk(k.chatId), SortKey(k))
  }

  function IndexSortKey(lastUpdatedAt: Instant, c: Uuid): string {
    "UPDATED#" + (FormatInstant(lastUpdatedAt) + ("#" + UuidText(c)))
  }

  /** How keys are written. */
  lemma KeyTexts(c: Uuid, sentAt: Instant, requestId: Uuid, user: Uuid)
    ensures Encode(ChatKey(c)) == PrimaryKey("CHAT#" + UuidText(c), "CHAT")
    ensures Encode(MessageKey(c, sentAt, requestId, User)) ==
            PrimaryKey("CHAT#" + UuidText(c),
                       "MESSAGE#" + FormatInstant(sentAt) + "#" + UuidText(requestId) + "#0")
    ensures Encode(MessageKey(c, sentAt, requestId, Llm)) ==
            PrimaryKey("CHAT#" + UuidText(c),
                       "MESSAGE#" + FormatInstant(sentAt) + "#" + UuidText(requestId) + "#1")
    ensures UserPk(user) == "USER#" + UuidText(user)
    ensures IndexSortKey(sentAt, c) == "UPDATED#" + FormatInstant(sentAt) + "#" + UuidText(c)
  {
    hide FormatInstant, UuidText;
    assert "#" + "0" == "#0" && "#" + "1" == "#1";
  }

  /** Texts behind a common prefix compare by what follows it. */
  lemma PrefixOrder(p: string, x: string, y: string)
    ensures LexLess(p + x, p + y) <==> LexLess(x, y)
    ensures p + x == p + y <==> x == y
  {
    LexIrreflexive(p);
    LexConcat(p, x, p, y);
  }

  lemma MessageTailOrder(r: Uuid, s: Sender, q: Uuid, z: Sender)
    ensures LexLess(MessageTail(r, s), MessageTail(q, z)) <==> r < q || (r == q && s == User && z == Llm)
    ensures MessageTail(r, s) == MessageTail(q, z) <==> r == q && s == z
  {
    var x, y := "#" + SenderOrder(s), "#" + SenderOrder(z);
    PrefixOrder("#", SenderOrder(s), SenderOrder(z));
    LexOne(SenderOrder(s)[0], SenderOrder(z)[0]);
    UuidTextOrder(r, q);
    LexConcat(UuidText(r), x, UuidText(q), y);
    PrefixOrder("#", UuidText(r) + x, UuidText(q) + y);
  }

  lemma MessageKeyOrder(a: Key, b: Key)
    requires a.MessageKey? && b.MessageKey?
    ensures LexLess(SortKey(a), SortKey(b)) <==> SortLess(a, b)
    ensures SortKey(a) == SortKey(b) <==> a.sentAt == b.sentAt && a.requestId == b.requestId && a.sender == b.sender
  {
    var x, y := MessageTail(a.requestId, a.sender), MessageTail(b.requestId, b.sender);
    MessageTailOrder(a.requestId, a.sender, b.requestId, b.sender);
    TextOrderIsTimeOrder(a.sentAt, b.sentAt);
    LexConcat(FormatInstant(a.sentAt), x, FormatInstant(b.sentAt), y);
    PrefixOrder(MESSAGE_PREFIX, FormatInstant(a.sentAt) + x, FormatInstant(b.sentAt) + y);
  }

  /** The string order of sort keys is the order by instant, request id and user before llm, with the
      chat row first; and equal sort keys mean equal instants, request ids and senders. */
  lemma SortKeyOrder(a: Key, b: Key)
    requires a.chatId == b.chatId
    ensures LexLess(SortKey(a), SortKey(b)) <==> KeyLess(a, b)
    ensures SortKey(a) == SortKey(b) <==> a == b
  {
    if a.MessageKey? && b.MessageKey? {
      MessageKeyOrder(a, b);
    } else {
      assert SortKey(a)[0] == (if a.ChatKey? then 'C' else 'M');
      assert SortKey(b)[0] == (if b.ChatKey? then 'C' else 'M');
      if a.ChatKey? && b.ChatKey? {
        LexIrreflexive(SortKey(a));
      }
    }
  }

  /** Different keys have different texts. */
  lemma EncodeInjective(a: Key, b: Key)
    ensures Encode(a) == Encode(b) <==> a == b
    ensures ChatPk(a.chatId) == ChatPk(b.chatId) <==> a.chatId == b.chatId
  {
    PrefixOrder("CHAT#", UuidText(a.chatId), UuidText(b.chatId));
    UuidTextOrder(a.chatId, b.chatId);
    if a.chatId == b.chatId {
      SortKeyOrder(a, b);
    }
  }

  lemma UserPkInjective(u: Uuid, v: Uuid)
    ensures UserPk(u) == UserPk(v) <==> u == v
  {
    PrefixOrder("USER#", UuidText(u), UuidText(v));
    UuidTextOrder(u, v);
  }

  /** The string order of index keys is the order by last update and chat id. */
  lemma IndexSortKeyOrder(i: Instant, c: Uuid, j: Instant, d: Uuid)
    ensures LexLess(IndexSortKey(i, c), IndexSortKey(j, d)) <==> i < j || (i == j && c < d)
    ensures IndexSortKey(i, c) == IndexSortKey(j, d) <==> i == j && c == d
  {
    var x, y := "#" + UuidText(c), "#" + UuidText(d);
    UuidTextOrder(c, d);
    PrefixOrder("#", UuidText(c), UuidText(d));
    TextOrderIsTimeOrder(i, j);
    LexConcat(FormatInstant(i), x, FormatInstant(j), y);
    PrefixOrder("UPDATED#", FormatInstant(i) + x, FormatInstant(j) + y);
  }

  // ----- items

  function EncodeChat(chat: Chat): Item {
    ChatItem(UuidText(chat.chatId), chat.sessionId, chat.title, UuidText(chat.userId),
             FormatInstant(chat.createdAt), FormatInstant(chat.lastUpdatedAt), chat.version,
             UserPk(chat.userId), IndexSortKey(chat.lastUpdatedAt, chat.chatId))
  }

  function EncodeMessage(m: Message): Item
    requires StorableMessage(m)
  {
    MessageItem(UuidText(m.chatId), UuidText(m.requestId), SenderText(m.sender), m.content,
                SerializedCitations(m.citations).value, FormatInstant(m.sentAt))
  }

  /** Chat rows can always be written. */
  predicate StorableRow(row: Row) {
    row.MessageRow? ==> StorableMessage(row.message)
  }

  function EncodeRow(row: Row): Item
    requires StorableRow(row)
  {
    match row
    case ChatRow(chat) => EncodeChat(chat)
    case MessageRow(m) => EncodeMessage(m)
  }

  function DecodeChat(item: Item): Option<Chat>
    requires item.ChatItem?
  {
    var c, u := ParseUuid(item.chatId), ParseUuid(item.userId);
    var created, updated := ParseInstant(item.createdAt), ParseInstant(item.lastUpdatedAt);
    if c.Some? && u.Some? && created.Some? && updated.Some? then
      Some(Chat(c.value, item.sessionId, item.title, u.value, created.value, updated.value, item.version))
    else None
  }

  /** What a reader of the message history is given. */
  datatype Record = Record(requestId: Uuid, sender: string, content: string, sentAt: Instant, citations: seq<Citation>)

  function DecodeMessage(item: Item): Option<Record>
    requires item.MessageItem?
  {
    var r, at := ParseUuid(item.requestId), ParseInstant(item.sentAt);
    if r.Some? && at.Some? then
      Some(Record(r.value, item.sender, item.content, at.value, LoadedCitations(item.citations))) else None
  }

  /** Every attribute of a chat's item holds what it is named for. */
  lemma ChatAttributes(chat: Chat)
    ensures var item := EncodeChat(chat);
            && ParseUuid(item.chatId) == Some(chat.chatId) && ParseUuid(item.userId) == Some(chat.userId)
            && item.sessionId == chat.sessionId && item.title == chat.title && item.version == chat.version
            && ParseInstant(item.createdAt) == Some(chat.createdAt)
            && ParseInstant(item.lastUpdatedAt) == Some(chat.lastUpdatedAt)
            && item.gsi1pk == "USER#" + item.userId
            && item.gsi1sk == "UPDATED#" + item.lastUpdatedAt + "#" + item.chatId
  {
    ParseUuidText(chat.chatId);
    ParseUuidText(chat.userId);
    ParseFormat(chat.createdAt);
    ParseFormat(chat.lastUpdatedAt);
    hide FormatInstant, UuidText, ParseUuid, ParseInstant;
  }

  /** So does every attribute of a message's. */
  lemma MessageAttributes(m: Message)
    requires StorableMessage(m)
    ensures var item := EncodeMessage(m);
            && ParseUuid(item.chatId) == Some(m.chatId) && ParseUuid(item.requestId) == Some(m.requestId)
            && item.sender == (if m.sender == User then "user" else "llm") && item.content == m.content
            && ParseInstant(item.sentAt) == Some(m.sentAt)
            && LoadedCitations(item.citations) == NormalCitations(m.citations)
  {
    ParseUuidText(m.chatId);
    ParseUuidText(m.requestId);
    ParseFormat(m.sentAt);
    CitationsReadBack(m.citations);
    hide FormatInstant, UuidText, ParseUuid, ParseInstant, LoadedCitations;
  }

  /** A stored chat is read back as it was written. */
  lemma ChatRoundTrip(chat: Chat)
    ensures DecodeChat(EncodeChat(chat)) == Some(chat)
  {
    ParseUuidText(chat.chatId);
    ParseUuidText(chat.userId);
    ParseFormat(chat.createdAt);
    ParseFormat(chat.lastUpdatedAt);
  }

  /** A stored message is read back as it was written, its sender as "user" or "llm", up to the normal form of its
      citations. */
  lemma MessageRoundTrip(m: Message)
    requires StorableMessage(m)
    ensures DecodeMessage(EncodeMessage(m)) ==
            Some(Record(m.requestId, if m.sender == User then "user" else "llm", m.content, m.sentAt,
                        LoadedCitations(SerializedCitations(m.citations).value)))
  {
    ParseUuidText(m.requestId);
    ParseFormat(m.sentAt);
  }
}
