/** The chat repository. Each method takes, for its contract only, the structured table t that the items
    represent, and says which of the protocol's atomic actions on t it has performed. */
module Repository {
  import opened Text
  import opened Time
  import opened Uuids
  import opened Citations
  import opened Domain
  import opened Store
  import opened Encoding
  import opened Database
  import opened Representation

  datatype RepositoryError = SaveError | ConflictError | LoadError | NotFoundError | TitleError | DeleteError
    | AccessError

  datatype Summary = Summary(chatId: Uuid, title: string, createdAt: Instant, lastUpdatedAt: Instant)

  /** The summary is that of the stored chat. */
  predicate Sums(summary: Summary, chat: Chat) {
    && summary.chatId == chat.chatId && summary.title == chat.title
    && summary.createdAt == chat.createdAt && summary.lastUpdatedAt == chat.lastUpdatedAt
  }

  function DecodeSummary(item: Item): Option<Summary>
    requires item.ChatItem?
  {
    var c, created, updated := ParseUuid(item.chatId), ParseInstant(item.createdAt), ParseInstant(item.lastUpdatedAt);
    if c.Some? && created.Some? && updated.Some? then Some(Summary(c.value, item.title, created.value, updated.value))
    else None
  }

  lemma SummaryRoundTrip(chat: Chat)
    ensures DecodeSummary(EncodeChat(chat)).Some? && Sums(DecodeSummary(EncodeChat(chat)).value, chat)
  {
    ParseUuidText(chat.chatId);
    ParseFormat(chat.createdAt);
    ParseFormat(chat.lastUpdatedAt);
  }

  /** The record tells the stored message: who spoke, in which request, what and when. */
  predicate Tells(record: Record, m: Message) {
    && record.requestId == m.requestId && record.sender == (if m.sender == User then "user" else "llm")
    && record.content == m.content && record.sentAt == m.sentAt && record.citations == NormalCitations(m.citations)
  }

  lemma RecordRoundTrip(m: Message)
    requires StorableMessage(m)
    ensures DecodeMessage(EncodeMessage(m)).Some? && Tells(DecodeMessage(EncodeMessage(m)).value, m)
  {
    MessageRoundTrip(m);
    CitationsReadBack(m.citations);
  }

  class ChatRepository {
    const client: ChatTable

    constructor (client: ChatTable)
      ensures this.client == client
    {
      this.client := client;
    }

    method SaveStartedChat(chat: Chat, user: Message, llm: Message, ghost t: Table) returns (r: Option<RepositoryError>)
      requires Represents(client.items, t)
      modifies client
      ensures r == None ==> StartAccepted(t, chat, user, llm) && Represents(client.items, PutTurn(t, chat, user, llm))
      ensures r != None ==> r == Some(SaveError) && client.items == old(client.items)
      ensures client.faults == old(client.faults) ==>
                (r == None <==> StartAccepted(t, chat, user, llm) && StorableMessage(user) && StorableMessage(llm))
      ensures client.faults > old(client.faults) ==> r == Some(SaveError)
      ensures client.faults >= old(client.faults)
    {
      hide Encode, EncodeChat, EncodeMessage, Represents, PutAll, StorableMessage;
      if !StorableMessage(user) || !StorableMessage(llm) {
        return Some(SaveError);
      }
      StartConditions(client.items, t, chat, user, llm);
      TurnPuts(client.items, t, chat, user, llm, NotExists);
      var result := client.TransactWriteItems(StartPuts(chat, user, llm));
      r := if result == Done then None else Some(SaveError);
    }

    method SaveExchange(chat: Chat, user: Message, llm: Message, ghost t: Table) returns (r: Option<RepositoryError>)
      requires Represents(client.items, t)
      modifies client
      ensures r == None ==>
                ExchangeAccepted(t, chat, user, llm) && Represents(client.items, PutTurn(t, chat, user, llm))
      ensures r != None ==> client.items == old(client.items)
      ensures r == Some(ConflictError) ==> !ExchangeAccepted(t, chat, user, llm)
      ensures r == None || r == Some(ConflictError) || r == Some(SaveError)
      ensures !StorableMessage(user) || !StorableMessage(llm) ==>
                r == Some(SaveError) && client.faults == old(client.faults)
      ensures KeyOf(user) != KeyOf(llm) && StorableMessage(user) && StorableMessage(llm) ==>
                client.faults == old(client.faults) + (if r == Some(SaveError) then 1 else 0)
    {
      hide Encode, EncodeChat, EncodeMessage, Represents, PutAll, StorableMessage;
      if !StorableMessage(user) || !StorableMessage(llm) {
        return Some(SaveError);
      }
      ExchangeConditions(client.items, t, chat, user, llm);
      TurnPuts(client.items, t, chat, user, llm, VersionAndUser(chat.version - 1, UuidText(chat.userId)));
      var result := client.TransactWriteItems(ExchangePuts(chat, user, llm));
      r := match result
           case Done => None
           case ConditionFailed => Some(ConflictError)
           case ClientError => Some(SaveError);
    }

    method GetChat(chatId: Uuid, ghost t: Table) returns (r: Result<Chat, RepositoryError>)
      requires Represents(client.items, t)
      modifies client`faults
      ensures r.Ok? ==> LoadChat(t, chatId) == Some(r.value)
      ensures r == Err(NotFoundError) ==> LoadChat(t, chatId) == None
      ensures r.Err? ==> r.error == NotFoundError || r.error == LoadError
      ensures client.faults == old(client.faults) + (if r == Err(LoadError) then 1 else 0)
    {
      hide Encode, Represents, EncodeChat, DecodeChat;
      AbsentKey(client.items, t, ChatKey(chatId));
      if ChatKey(chatId) in t {
        RowCondition(client.items, t, chatId, 0, 0);
        ChatRoundTrip(t[ChatKey(chatId)].chat);
      }
      var fault, item := client.GetItem(Encode(ChatKey(chatId)));
      if fault {
        return Err(LoadError);
      }
      if item.None? {
        return Err(NotFoundError);
      }
      r := Ok(DecodeChat(item.value).value);
    }

    method UpdateTitle(chatId: Uuid, user: Uuid, title: string, ghost t: Table) returns (r: Option<RepositoryError>)
      requires Represents(client.items, t)
      modifies client
      ensures r == None ==> RenameAccepted(t, chatId, user) && Represents(client.items, PutTitle(t, chatId, title))
      ensures r != None ==> client.items == old(client.items)
      ensures r == Some(NotFoundError) ==> !RenameAccepted(t, chatId, user)
      ensures r == None || r == Some(NotFoundError) || r == Some(TitleError)
      ensures client.faults == old(client.faults) + (if r == Some(TitleError) then 1 else 0)
    {
      hide Encode, Represents, UuidText, EncodeChat;
      AbsentKey(client.items, t, ChatKey(chatId));
      if ChatKey(chatId) in t {
        RowCondition(client.items, t, chatId, 0, user);
        RenameRepresents(client.items, t, chatId, title);
      }
      var result := client.UpdateTitle(Encode(ChatKey(chatId)), title, UuidText(user));
      r := match result
           case Done => None
           case ConditionFailed => Some(NotFoundError)
           case ClientError => Some(TitleError);
    }
  }
}
