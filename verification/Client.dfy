/** The browser's copies of server state: its re-sorts, the chat list it maintains itself, and its own expiry
    test, each against the backend. Client times are instants cut to milliseconds. */
module Client {
  import opened Text
  import opened Time
  import opened Uuids
  import opened Domain
  import opened Sorting
  import opened StableSort
  import opened Store
  import opened Representation
  import opened Encoding
  import Protocol
  import Reading
  import Readers
  import Repository

  const CONTINUATION_LIMIT_MS := 24 * 60 * 60 * 1000

  /** Milliseconds of an instant. The Unix epoch lies a whole number of milliseconds after instant 0. */
  function Millis(i: Instant): nat {
    i / 1000
  }

  // ----- the expiry test

  predicate ClientExpired(updatedAt: Instant, now: Instant) {
    Millis(now) - Millis(updatedAt) >= CONTINUATION_LIMIT_MS
  }

  /** The client never offers what the backend refuses; and it refuses what the backend would accept exactly at an
      age of 24 hours, or less than a millisecond short of that when cutting to milliseconds rounds the age up. */
  lemma ExpiryAgreement(chat: Chat, now: Instant)
    ensures !ClientExpired(chat.lastUpdatedAt, now) ==> ContinuableAt(chat, now)
    ensures var age := now - chat.lastUpdatedAt;
            ClientExpired(chat.lastUpdatedAt, now) && ContinuableAt(chat, now) <==>
            age == 86_400_000_000 ||
              (86_400_000_000 - 1000 < age < 86_400_000_000 && now % 1000 < chat.lastUpdatedAt % 1000)
  {
    var u := chat.lastUpdatedAt;
    assert now == 1000 * Millis(now) + now % 1000;
    assert u == 1000 * Millis(u) + u % 1000;
  }

  // ----- the re-sorts

  datatype ClientChat = ClientChat(id: Uuid, title: string, updatedAt: Instant)

  predicate NewerMillis(a: ClientChat, b: ClientChat) {
    Millis(b.updatedAt) < Millis(a.updatedAt)
  }

  predicate OlderRecord(a: Record, b: Record) {
    Millis(a.sentAt) < Millis(b.sentAt)
  }

  /** getChats and getChatMessages: a stable sort of the backend's answer. */
  function SortedChats(chats: seq<ClientChat>): seq<ClientChat> {
    SortBy(chats, NewerMillis)
  }

  function SortedMessages(records: seq<Record>): seq<Record> {
    SortBy(records, OlderRecord)
  }

  /** The records of one millisecond, in their given order. */
  function SaidAt(records: seq<Record>, ms: int): seq<Record> {
    if records == [] then []
    else
      var n := |records| - 1;
      SaidAt(records[..n], ms) + (if records[n].sentAt / 1000 == ms then [records[n]] else [])
  }

  function UpdatedAt(chats: seq<ClientChat>, ms: int): seq<ClientChat> {
    if chats == [] then []
    else
      var n := |chats| - 1;
      UpdatedAt(chats[..n], ms) + (if chats[n].updatedAt / 1000 == ms then [chats[n]] else [])
  }

  lemma {:induction false} SaidAtTies(records: seq<Record>, x: Record)
    ensures SaidAt(records, x.sentAt / 1000) == Ties(records, x, OlderRecord)
  {
    if records != [] {
      SaidAtTies(records[..|records| - 1], x);
    }
  }

  lemma {:induction false} UpdatedAtTies(chats: seq<ClientChat>, x: ClientChat)
    ensures UpdatedAt(chats, x.updatedAt / 1000) == Ties(chats, x, NewerMillis)
  {
    if chats != [] {
      UpdatedAtTies(chats[..|chats| - 1], x);
    }
  }

  lemma {:induction false} NothingSaidAt(records: seq<Record>, ms: int)
    ensures SaidAt(records, ms) == [] <==> forall r | r in records :: r.sentAt / 1000 != ms
  {
    if records != [] {
      var n := |records| - 1;
      NothingSaidAt(records[..n], ms);
      assert records == records[..n] + [records[n]];
    }
  }

  lemma {:induction false} NothingUpdatedAt(chats: seq<ClientChat>, ms: int)
    ensures UpdatedAt(chats, ms) == [] <==> forall c | c in chats :: c.updatedAt / 1000 != ms
  {
    if chats != [] {
      var n := |chats| - 1;
      NothingUpdatedAt(chats[..n], ms);
      assert chats == chats[..n] + [chats[n]];
    }
  }

  /** What the re-sort does to any list of messages: the same ones by millisecond, oldest first, those of one
      millisecond as they came. */
  lemma MessagesByTime(records: seq<Record>, ms: int)
    ensures var sorted := SortedMessages(records);
            && multiset(sorted) == multiset(records)
            && (forall i, j | 0 <= i < j < |sorted| :: sorted[i].sentAt / 1000 <= sorted[j].sentAt / 1000)
            && SaidAt(sorted, ms) == SaidAt(records, ms)
  {
    var sorted := SortedMessages(records);
    assert WeakOrder(OlderRecord);
    SortOrdered(records, OlderRecord);
    forall i, j | 0 <= i < j < |sorted| ensures sorted[i].sentAt / 1000 <= sorted[j].sentAt / 1000 {
      assert !OlderRecord(sorted[j], sorted[i]);
    }
    if x :| x in records && x.sentAt / 1000 == ms {
      SortIsStable(records, x, OlderRecord);
      SaidAtTies(records, x);
      SaidAtTies(sorted, x);
    } else {
      assert forall x | x in sorted :: x in multiset(records) && x in records;
      NothingSaidAt(records, ms);
      NothingSaidAt(sorted, ms);
    }
  }

  /** And to any list of chats: newest first. */
  lemma ChatsByTime(chats: seq<ClientChat>, ms: int)
    ensures var sorted := SortedChats(chats);
            && multiset(sorted) == multiset(chats)
            && (forall i, j | 0 <= i < j < |sorted| :: sorted[j].updatedAt / 1000 <= sorted[i].updatedAt / 1000)
            && UpdatedAt(sorted, ms) == UpdatedAt(chats, ms)
  {
    var sorted := SortedChats(chats);
    assert WeakOrder(NewerMillis);
    SortOrdered(chats, NewerMillis);
    forall i, j | 0 <= i < j < |sorted| ensures sorted[j].updatedAt / 1000 <= sorted[i].updatedAt / 1000 {
      assert !NewerMillis(sorted[j], sorted[i]);
    }
    if x :| x in chats && x.updatedAt / 1000 == ms {
      SortIsStable(chats, x, NewerMillis);
      UpdatedAtTies(chats, x);
      UpdatedAtTies(sorted, x);
    } else {
      assert forall x | x in sorted :: x in multiset(chats) && x in chats;
      NothingUpdatedAt(chats, ms);
      NothingUpdatedAt(sorted, ms);
    }
  }

  predicate Descending(chats: seq<ClientChat>) {
    forall i, j | 0 <= i < j < |chats| :: chats[j].updatedAt <= chats[i].updatedAt
  }

  lemma ChatResortIsIdentity(chats: seq<ClientChat>)
    requires Descending(chats)
    ensures SortedChats(chats) == chats
  {
    SortIsIdentity(chats, NewerMillis);
  }

  lemma MessageResortIsIdentity(records: seq<Record>)
    requires forall i, j | 0 <= i < j < |records| :: records[i].sentAt <= records[j].sentAt
    ensures SortedMessages(records) == records
  {
    SortIsIdentity(records, OlderRecord);
  }

  // ----- the chat list

  function Remove(chats: seq<ClientChat>, id: Uuid): seq<ClientChat> {
    if chats == [] then []
    else (if chats[0].id == id then [] else [chats[0]]) + Remove(chats[1..], id)
  }

  function Retitle(chats: seq<ClientChat>, id: Uuid, title: string): seq<ClientChat> {
    seq(|chats|, i requires 0 <= i < |chats| => if chats[i].id == id then chats[i].(title := title) else chats[i])
  }

  // ----- the list against a fresh fetch

  function ClientOf(chat: Chat): ClientChat {
    ClientChat(chat.chatId, chat.title, chat.lastUpdatedAt)
  }

  /** What a fresh fetch gives: the index listing, re-sorted by the client. */
  ghost predicate IsFetch(chats: seq<ClientChat>, t: Table, u: Uuid) {
    exists listed: seq<ClientChat> :: Lists(listed, t, LatestFirst(t, u)) && chats == SortedChats(listed)
  }

  predicate Lists(listed: seq<ClientChat>, t: Table, rs: seq<Recent>) {
    && |listed| == |rs|
    && forall i | 0 <= i < |rs| ::
       ChatKey(rs[i].chatId) in t && t[ChatKey(rs[i].chatId)].ChatRow? &&
         listed[i] == ClientOf(t[ChatKey(rs[i].chatId)].chat)
  }

  /** The list shows exactly the user's chats as stored, latest first. */
  ghost predicate Mirrors(chats: seq<ClientChat>, t: Table, u: Uuid) {
    && (forall i, j | 0 <= i < j < |chats| ::
         MoreRecent(Recent(chats[i].updatedAt, chats[i].id), Recent(chats[j].updatedAt, chats[j].id)))
    && (forall i | 0 <= i < |chats| :: Shows(chats[i], t, u))
    && (forall k | IsChatOf(t, k, u) :: exists i :: 0 <= i < |chats| && chats[i].id == k.chatId)
  }

  predicate Shows(c: ClientChat, t: Table, u: Uuid) {
    IsChatOf(t, ChatKey(c.id), u) &&
    var chat := t[ChatKey(c.id)].chat;
    c.id == chat.chatId && c.title == chat.title && c.updatedAt == chat.lastUpdatedAt
  }

  predicate ProperRows(t: Table) {
    forall k | k in t :: RowHasKey(k, t[k])
  }

  lemma EntryShown(chats: seq<ClientChat>, t: Table, u: Uuid, rs: seq<Recent>, r: Recent)
    requires ProperRows(t) && Mirrors(chats, t, u) && |rs| == |chats|
    requires forall i | 0 <= i < |chats| :: rs[i] == Recent(chats[i].updatedAt, chats[i].id)
    ensures r in rs <==> r in ChatsOf(t, u)
  {
    if r in rs {
      var i :| 0 <= i < |rs| && rs[i] == r;
      assert Shows(chats[i], t, u);
    }
    if r in ChatsOf(t, u) {
      var k :| k in t && k.ChatKey? && t[k].ChatRow? && t[k].chat.userId == u && r == RecentOf(t[k].chat);
      assert IsChatOf(t, k, u) && RowHasKey(k, t[k]);
      var i :| 0 <= i < |chats| && chats[i].id == k.chatId;
      assert Shows(chats[i], t, u) && rs[i] == r;
    }
  }

  lemma MirrorIsFetch(chats: seq<ClientChat>, t: Table, u: Uuid)
    requires ProperRows(t) && Mirrors(chats, t, u)
    ensures IsFetch(chats, t, u)
  {
    var rs := seq(|chats|, i requires 0 <= i < |chats| => Recent(chats[i].updatedAt, chats[i].id));
    forall r ensures r in rs <==> r in ChatsOf(t, u) {
      EntryShown(chats, t, u, rs, r);
    }
    RecencyIsTotal();
    IsInOrder(rs, ChatsOf(t, u), MoreRecent);
    hide ChatsOf, MoreRecent, ProperRows, LatestFirst;
    forall i | 0 <= i < |rs|
      ensures ChatKey(rs[i].chatId) in t && t[ChatKey(rs[i].chatId)].ChatRow?
      ensures chats[i] == ClientOf(t[ChatKey(rs[i].chatId)].chat)
    {
      assert Shows(chats[i], t, u);
    }
    assert Lists(chats, t, LatestFirst(t, u));
    ChatResortIsIdentity(chats);
  }

  // ----- fresh listings

  /** Whatever rows are stored, the client's re-sort leaves the backend's list of chats as it came. */
  lemma FetchKeepsListing(listed: seq<ClientChat>, t: Table, u: Uuid)
    requires ProperRows(t) && Lists(listed, t, LatestFirst(t, u))
    ensures SortedChats(listed) == listed
  {
    RecencyIsTotal();
    InOrderIsOrdered(ChatsOf(t, u), MoreRecent);
    var rs := LatestFirst(t, u);
    forall i | 0 <= i < |rs| ensures listed[i].updatedAt == rs[i].lastUpdatedAt {
      assert rs[i] in ChatsOf(t, u);
      var k :| k in t && k.ChatKey? && t[k].ChatRow? && t[k].chat.userId == u && rs[i] == RecentOf(t[k].chat);
      assert RowHasKey(k, t[k]);
    }
    forall i, j | 0 <= i < j < |listed| ensures listed[j].updatedAt <= listed[i].updatedAt {
      assert MoreRecent(rs[i], rs[j]);
    }
    ChatResortIsIdentity(listed);
  }

  lemma FetchedEntry(chats: seq<ClientChat>, t: Table, u: Uuid, i: nat)
    requires ProperRows(t) && Lists(chats, t, LatestFirst(t, u)) && i < |chats|
    ensures Shows(chats[i], t, u) && LatestFirst(t, u)[i] == Recent(chats[i].updatedAt, chats[i].id)
  {
    RecencyIsTotal();
    InOrderIsOrdered(ChatsOf(t, u), MoreRecent);
    var r := LatestFirst(t, u)[i];
    assert r in ChatsOf(t, u);
    var k :| k in t && k.ChatKey? && t[k].ChatRow? && t[k].chat.userId == u && r == RecentOf(t[k].chat);
    assert RowHasKey(k, t[k]);
  }

  lemma ChatFetched(chats: seq<ClientChat>, t: Table, u: Uuid, k: Key)
    requires ProperRows(t) && Lists(chats, t, LatestFirst(t, u)) && IsChatOf(t, k, u)
    ensures exists i :: 0 <= i < |chats| && chats[i].id == k.chatId
  {
    RecencyIsTotal();
    InOrderIsOrdered(ChatsOf(t, u), MoreRecent);
    var rs := LatestFirst(t, u);
    assert RowHasKey(k, t[k]);
    assert RecentOf(t[k].chat) in ChatsOf(t, u);
    var i :| 0 <= i < |rs| && rs[i] == RecentOf(t[k].chat);
    FetchedEntry(chats, t, u, i);
  }

  /** A fresh fetch shows the table. */
  lemma FetchMirrors(chats: seq<ClientChat>, t: Table, u: Uuid)
    requires ProperRows(t) && IsFetch(chats, t, u)
    ensures Mirrors(chats, t, u)
  {
    hide MoreRecent, IsChatOf, Shows, ProperRows, SortedChats, Lists;
    var listed: seq<ClientChat> :| Lists(listed, t, LatestFirst(t, u)) && chats == SortedChats(listed);
    FetchKeepsListing(listed, t, u);
    RecencyIsTotal();
    InOrderIsOrdered(ChatsOf(t, u), MoreRecent);
    ListedLength(chats, t, LatestFirst(t, u));
    forall i | 0 <= i < |chats|
      ensures Shows(chats[i], t, u) && LatestFirst(t, u)[i] == Recent(chats[i].updatedAt, chats[i].id)
    {
      FetchedEntry(chats, t, u, i);
    }
    forall k | IsChatOf(t, k, u) ensures exists i :: 0 <= i < |chats| && chats[i].id == k.chatId {
      ChatFetched(chats, t, u, k);
    }
  }

  lemma ListedLength(listed: seq<ClientChat>, t: Table, rs: seq<Recent>)
    requires Lists(listed, t, rs)
    ensures |listed| == |rs|
  {
  }

  /** The re-sort of a chat's messages leaves the backend's list as it came, however many pages it was read in. */
  lemma FetchKeepsMessages(begun: seq<Protocol.Step>, after: seq<Protocol.Step>, c: Uuid, keys: seq<Key>,
                           moments: seq<seq<Protocol.Step>>, records: seq<Record>)
    requires Reading.MessagesRead(begun, after, c, keys, moments, records)
    ensures SortedMessages(records) == records
  {
    Reading.OldestFirst(begun, after, c, keys, moments, records);
    MessageResortIsIdentity(records);
  }

  function FromSummaries(summaries: seq<Repository.Summary>): seq<ClientChat> {
    seq(|summaries|, i requires 0 <= i < |summaries| =>
      ClientChat(summaries[i].chatId, summaries[i].title, summaries[i].lastUpdatedAt))
  }

  /** So does the re-sort of the chats. */
  lemma FetchKeepsChats(begun: seq<Protocol.Step>, after: seq<Protocol.Step>, u: Uuid, entries: seq<Recent>,
                        moments: seq<seq<Protocol.Step>>, summaries: seq<Repository.Summary>)
    requires Reading.ChatsRead(begun, after, u, entries, moments, summaries)
    ensures SortedChats(FromSummaries(summaries)) == FromSummaries(summaries)
  {
    var chats := FromSummaries(summaries);
    Reading.NewestFirst(begun, after, u, entries, moments, summaries);
    ChatResortIsIdentity(chats);
  }

  /** What the client shows after a fetch during which nothing else runs. */
  lemma QuietFetch(steps: seq<Protocol.Step>, u: Uuid, entries: seq<Recent>, moments: seq<seq<Protocol.Step>>,
                   summaries: seq<Repository.Summary>)
    requires Reading.ChatsRead(steps, steps, u, entries, moments, summaries)
    ensures ProperRows(Protocol.Run(steps).world.table)
    ensures IsFetch(SortedChats(FromSummaries(summaries)), Protocol.Run(steps).world.table, u)
  {
    var t := Protocol.Run(steps).world.table;
    Protocol.RunKeeps(steps);
    Reading.RowsUnderTheirKeys(Protocol.Run(steps).world);
    Readers.QuietListIsExact(steps, u, entries, moments, summaries);
    hide SortedChats, Protocol.Run, LatestFirst, Protocol.Invariant, IsFetch;
    var listed := FromSummaries(summaries);
    forall i | 0 <= i < |entries|
      ensures ChatKey(entries[i].chatId) in t && t[ChatKey(entries[i].chatId)].ChatRow?
      ensures listed[i] == ClientOf(t[ChatKey(entries[i].chatId)].chat)
    {
      assert Reading.SummaryAt(moments[i], u, entries[i], summaries[i]) && moments[i] == steps;
    }
    ListedIsFetch(listed, t, u);
  }

  lemma ListedIsFetch(listed: seq<ClientChat>, t: Table, u: Uuid)
    requires Lists(listed, t, LatestFirst(t, u))
    ensures IsFetch(SortedChats(listed), t, u)
  {
  }

  /** One successful request of the only client, as the server carries it out and as the client follows. */
  datatype Op =
    | Started(chat: Chat, user: Message, llm: Message)
    | Continued(chat: Chat, user: Message, llm: Message)
    | RenamedTo(id: Uuid, title: string)
    | Deleted(id: Uuid)

  function Serve(t: Table, op: Op): Table {
    match op
    case Started(chat, user, llm) => PutTurn(t, chat, user, llm)
    case Continued(chat, user, llm) => PutTurn(t, chat, user, llm)
    case RenamedTo(id, title) => if ChatKey(id) in t && t[ChatKey(id)].ChatRow? then PutTitle(t, id, title) else t
    case Deleted(id) => t - Partition(t, id)
  }

  function Follow(chats: seq<ClientChat>, op: Op): seq<ClientChat> {
    match op
    case Started(chat, _, _) => [ClientOf(chat)] + Remove(chats, chat.chatId)
    case Continued(chat, _, _) => [ClientOf(chat)] + Remove(chats, chat.chatId)
    case RenamedTo(id, title) => Retitle(chats, id, title)
    case Deleted(id) => Remove(chats, id)
  }

  /** The request succeeds for this user. */
  predicate Admitted(t: Table, u: Uuid, op: Op) {
    match op
    case Started(chat, user, llm) =>
      StartAccepted(t, chat, user, llm) && StorableMessage(user) && StorableMessage(llm) && chat.userId == u &&
        IsTurnPair(chat.chatId, user, llm)
    case Continued(chat, user, llm) =>
      ExchangeAccepted(t, chat, user, llm) && StorableMessage(user) && StorableMessage(llm) && chat.userId == u &&
        IsTurnPair(chat.chatId, user, llm)
    case RenamedTo(id, _) => RenameAccepted(t, id, u)
    case Deleted(id) => RenameAccepted(t, id, u)
  }

  /** An answer is later than every answer before. */
  predicate InTime(t: Table, u: Uuid, op: Op) {
    op.Started? || op.Continued? ==> Latest(t, u, op.chat.lastUpdatedAt)
  }

  predicate Succeeds(t: Table, u: Uuid, op: Op) {
    Admitted(t, u, op) && InTime(t, u, op)
  }

  predicate Latest(t: Table, u: Uuid, at: Instant) {
    forall k | k in t && IsChatOf(t, k, u) :: t[k].chat.lastUpdatedAt < at
  }

  lemma {:induction false} Removed(chats: seq<ClientChat>, id: Uuid)
    ensures forall c :: c in Remove(chats, id) <==> c in chats && c.id != id
  {
    if chats != [] {
      Removed(chats[1..], id);
    }
  }

  predicate Newest(chats: seq<ClientChat>) {
    forall i, j | 0 <= i < j < |chats| ::
      MoreRecent(Recent(chats[i].updatedAt, chats[i].id), Recent(chats[j].updatedAt, chats[j].id))
  }

  lemma {:induction false} RemoveKeepsOrder(chats: seq<ClientChat>, id: Uuid)
    requires Newest(chats)
    ensures Newest(Remove(chats, id))
  {
    if chats != [] {
      RemoveKeepsOrder(chats[1..], id);
      Removed(chats[1..], id);
      var rest := Remove(chats[1..], id);
      forall j | 0 <= j < |rest|
        ensures MoreRecent(Recent(chats[0].updatedAt, chats[0].id), Recent(rest[j].updatedAt, rest[j].id))
      {
        assert rest[j] in rest;
        var i :| 0 <= i < |chats[1..]| && chats[1..][i] == rest[j];
        assert chats[i + 1] == rest[j];
      }
    }
  }

  lemma OthersShown(chats: seq<ClientChat>, t: Table, u: Uuid, chat: Chat, user: Message, llm: Message, c: ClientChat)
    requires Mirrors(chats, t, u) && Latest(t, u, chat.lastUpdatedAt) && c in Remove(chats, chat.chatId)
    ensures Shows(c, PutTurn(t, chat, user, llm), u) && c.updatedAt < chat.lastUpdatedAt
  {
    Removed(chats, chat.chatId);
    var j :| 0 <= j < |chats| && chats[j] == c;
    assert Shows(chats[j], t, u);
  }

  lemma AllShown(chats: seq<ClientChat>, t: Table, u: Uuid, chat: Chat, user: Message, llm: Message, k: Key)
    requires Mirrors(chats, t, u) && IsChatOf(PutTurn(t, chat, user, llm), k, u)
    ensures k.chatId == chat.chatId || exists c :: c in Remove(chats, chat.chatId) && c.id == k.chatId
  {
    if k != ChatKey(chat.chatId) {
      assert IsChatOf(t, k, u);
      var j :| 0 <= j < |chats| && chats[j].id == k.chatId;
      Removed(chats, chat.chatId);
      assert chats[j] in Remove(chats, chat.chatId);
    }
  }

  lemma TurnShown(chats: seq<ClientChat>, t: Table, u: Uuid, chat: Chat, user: Message, llm: Message, k: Key,
                  after: seq<ClientChat>)
    requires Mirrors(chats, t, u) && IsChatOf(PutTurn(t, chat, user, llm), k, u)
    requires after == [ClientOf(chat)] + Remove(chats, chat.chatId)
    ensures exists i :: 0 <= i < |after| && after[i].id == k.chatId
  {
    AllShown(chats, t, u, chat, user, llm, k);
    if k.chatId == chat.chatId {
      assert after[0].id == k.chatId;
    } else {
      var rest := Remove(chats, chat.chatId);
      var c :| c in rest && c.id == k.chatId;
      var j :| 0 <= j < |rest| && rest[j] == c;
      assert after[j + 1] == c;
    }
  }

  lemma TurnMirrored(chats: seq<ClientChat>, t: Table, u: Uuid, chat: Chat, user: Message, llm: Message)
    requires Mirrors(chats, t, u) && chat.userId == u && Latest(t, u, chat.lastUpdatedAt)
    ensures Mirrors([ClientOf(chat)] + Remove(chats, chat.chatId), PutTurn(t, chat, user, llm), u)
  {
    hide Remove, Latest;
    var rest := Remove(chats, chat.chatId);
    var after, v := [ClientOf(chat)] + rest, PutTurn(t, chat, user, llm);
    RemoveKeepsOrder(chats, chat.chatId);
    forall i | 0 <= i < |rest| ensures Shows(rest[i], v, u) && rest[i].updatedAt < chat.lastUpdatedAt {
      OthersShown(chats, t, u, chat, user, llm, rest[i]);
    }
    forall k | IsChatOf(v, k, u) ensures exists i :: 0 <= i < |after| && after[i].id == k.chatId {
      TurnShown(chats, t, u, chat, user, llm, k, after);
    }
  }

  lemma RenameMirrored(chats: seq<ClientChat>, t: Table, u: Uuid, id: Uuid, title: string)
    requires ProperRows(t) && Mirrors(chats, t, u) && RenameAccepted(t, id, u)
    ensures Mirrors(Retitle(chats, id, title), PutTitle(t, id, title), u)
  {
    var after, v := Retitle(chats, id, title), PutTitle(t, id, title);
    forall i | 0 <= i < |after|
      ensures Shows(after[i], v, u) && after[i].id == chats[i].id && after[i].updatedAt == chats[i].updatedAt
    {
      RetitledShown(chats[i], t, u, id, title);
    }
    hide Shows, PutTitle, Retitle;
    forall k | IsChatOf(v, k, u) ensures exists i :: 0 <= i < |after| && after[i].id == k.chatId {
      StillChatOf(t, u, id, title, k);
      var i :| 0 <= i < |chats| && chats[i].id == k.chatId;
      assert after[i].id == k.chatId;
    }
  }

  lemma RetitledShown(c: ClientChat, t: Table, u: Uuid, id: Uuid, title: string)
    requires RenameAccepted(t, id, u) && Shows(c, t, u)
    ensures Shows(if c.id == id then c.(title := title) else c, PutTitle(t, id, title), u)
  {
  }

  lemma StillChatOf(t: Table, u: Uuid, id: Uuid, title: string, k: Key)
    requires RenameAccepted(t, id, u) && IsChatOf(PutTitle(t, id, title), k, u)
    ensures IsChatOf(t, k, u)
  {
  }

  lemma DeleteMirrored(chats: seq<ClientChat>, t: Table, u: Uuid, id: Uuid)
    requires Mirrors(chats, t, u)
    ensures Mirrors(Remove(chats, id), t - Partition(t, id), u)
  {
    var after, v := Remove(chats, id), t - Partition(t, id);
    Removed(chats, id);
    RemoveKeepsOrder(chats, id);
    forall i | 0 <= i < |after| ensures Shows(after[i], v, u) {
      assert after[i] in after;
      var j :| 0 <= j < |chats| && chats[j] == after[i];
      assert Shows(chats[j], t, u);
    }
    forall k | IsChatOf(v, k, u) ensures exists i :: 0 <= i < |after| && after[i].id == k.chatId {
      assert IsChatOf(t, k, u);
      var j :| 0 <= j < |chats| && chats[j].id == k.chatId;
      assert chats[j] in after;
    }
  }

  lemma ServeKeepsRows(t: Table, u: Uuid, op: Op)
    requires ProperRows(t) && Succeeds(t, u, op)
    ensures ProperRows(Serve(t, op))
  {
    hide StorableMessage;
  }

  lemma FollowMirrors(chats: seq<ClientChat>, t: Table, u: Uuid, op: Op)
    requires ProperRows(t) && Mirrors(chats, t, u) && Succeeds(t, u, op)
    ensures ProperRows(Serve(t, op)) && Mirrors(Follow(chats, op), Serve(t, op), u)
  {
    ServeKeepsRows(t, u, op);
    hide Mirrors, PutTurn, PutTitle, Partition, Remove, Retitle, ProperRows, StorableMessage;
    match op
    case Started(chat, user, llm) => TurnMirrored(chats, t, u, chat, user, llm);
    case Continued(chat, user, llm) => TurnMirrored(chats, t, u, chat, user, llm);
    case RenamedTo(id, title) => RenameMirrored(chats, t, u, id, title);
    case Deleted(id) => DeleteMirrored(chats, t, u, id);
  }

  /** The list shows the table before the request, and the table carries it out. */
  ghost predicate Serves(chats: seq<ClientChat>, t: Table, u: Uuid, op: Op) {
    ProperRows(t) && Mirrors(chats, t, u) && Succeeds(t, u, op)
  }

  /** The list held by the component. The ghost arguments are the table and the request the handler follows; a list
      that showed the table before the request shows it afterwards. */
  class ChatThreads {
    var chats: seq<ClientChat>
    var selectedChatId: Option<Uuid>

    method HandleUpsertChat(chat: ClientChat, ghost t: Table, ghost u: Uuid, ghost op: Op)
      requires (op.Started? || op.Continued?) && chat == ClientOf(op.chat)
      modifies `chats
      ensures chats == Follow(old(chats), op)
      ensures Serves(old(chats), t, u, op) ==> ProperRows(Serve(t, op)) && Mirrors(chats, Serve(t, op), u)
    {
      if Serves(chats, t, u, op) {
        FollowMirrors(chats, t, u, op);
      }
      chats := [chat] + Remove(chats, chat.id);
    }

    /** Renames on the server first; renamed says whether that succeeded. */
    method HandleRenameChat(title: string, renamed: bool, ghost t: Table, ghost u: Uuid)
      modifies `chats
      ensures selectedChatId.None? || !renamed ==> chats == old(chats)
      ensures selectedChatId.Some? && renamed ==>
                var op := RenamedTo(selectedChatId.value, title);
                && chats == Follow(old(chats), op)
                && (Serves(old(chats), t, u, op) ==> ProperRows(Serve(t, op)) && Mirrors(chats, Serve(t, op), u))
    {
      if selectedChatId.None? || !renamed {
        return;
      }
      ghost var op := RenamedTo(selectedChatId.value, title);
      if Serves(chats, t, u, op) {
        FollowMirrors(chats, t, u, op);
      }
      chats := Retitle(chats, selectedChatId.value, title);
    }

    /** Deletes on the server first; deleted says whether that succeeded. */
    method HandleDeleteChat(deleted: bool, ghost t: Table, ghost u: Uuid)
      modifies `chats
      ensures selectedChatId.None? || !deleted ==> chats == old(chats)
      ensures selectedChatId.Some? && deleted ==>
                var op := Deleted(selectedChatId.value);
                && chats == Follow(old(chats), op)
                && (Serves(old(chats), t, u, op) ==> ProperRows(Serve(t, op)) && Mirrors(chats, Serve(t, op), u))
    {
      if selectedChatId.None? || !deleted {
        return;
      }
      ghost var op := Deleted(selectedChatId.value);
      if Serves(chats, t, u, op) {
        FollowMirrors(chats, t, u, op);
      }
      chats := Remove(chats, selectedChatId.value);
    }
  }

  function ServeAll(t: Table, ops: seq<Op>): Table {
    if ops == [] then t else Serve(ServeAll(t, ops[..|ops| - 1]), ops[|ops| - 1])
  }

  function FollowAll(chats: seq<ClientChat>, ops: seq<Op>): seq<ClientChat> {
    if ops == [] then chats else Follow(FollowAll(chats, ops[..|ops| - 1]), ops[|ops| - 1])
  }

  predicate AllSucceed(t: Table, u: Uuid, ops: seq<Op>) {
    ops == [] || (AllSucceed(t, u, ops[..|ops| - 1]) && Succeeds(ServeAll(t, ops[..|ops| - 1]), u, ops[|ops| - 1]))
  }

  lemma {:induction false} FollowAllMirrors(chats: seq<ClientChat>, t: Table, u: Uuid, ops: seq<Op>)
    requires ProperRows(t) && Mirrors(chats, t, u) && AllSucceed(t, u, ops)
    ensures ProperRows(ServeAll(t, ops)) && Mirrors(FollowAll(chats, ops), ServeAll(t, ops), u)
  {
    if ops != [] {
      var n := |ops| - 1;
      FollowAllMirrors(chats, t, u, ops[..n]);
      FollowMirrors(FollowAll(chats, ops[..n]), ServeAll(t, ops[..n]), u, ops[n]);
    }
  }

  /** The list a client maintains from a fetch on, through any successful requests of its own with ever later
      answers, is what a fresh fetch would give. */
  lemma ListStaysFresh(chats: seq<ClientChat>, t: Table, u: Uuid, ops: seq<Op>)
    requires ProperRows(t) && IsFetch(chats, t, u) && AllSucceed(t, u, ops)
    ensures IsFetch(FollowAll(chats, ops), ServeAll(t, ops), u)
  {
    FetchMirrors(chats, t, u);
    FollowAllMirrors(chats, t, u, ops);
    MirrorIsFetch(FollowAll(chats, ops), ServeAll(t, ops), u);
  }

  // ----- grouping by day

  datatype Group = Today | Week | Older

  function GroupOf(c: ClientChat, startOfToday: int, sevenDaysAgo: int): Group {
    if Millis(c.updatedAt) >= startOfToday then Today else if Millis(c.updatedAt) >= sevenDaysAgo then Week else Older
  }

  /** The chats of one group, in list order. */
  function Pick(chats: seq<ClientChat>, g: Group, startOfToday: int, sevenDaysAgo: int): seq<ClientChat> {
    if chats == [] then []
    else
      var n := |chats| - 1;
      Pick(chats[..n], g, startOfToday, sevenDaysAgo)
        + (if GroupOf(chats[n], startOfToday, sevenDaysAgo) == g then [chats[n]] else [])
  }

  lemma {:induction false} Picked(chats: seq<ClientChat>, g: Group, startOfToday: int, sevenDaysAgo: int, c: ClientChat)
    ensures c in Pick(chats, g, startOfToday, sevenDaysAgo) <==>
              c in chats && GroupOf(c, startOfToday, sevenDaysAgo) == g
  {
    hide GroupOf;
    if chats != [] {
      var n := |chats| - 1;
      Picked(chats[..n], g, startOfToday, sevenDaysAgo, c);
      assert chats == chats[..n] + [chats[n]];
    }
  }

  lemma {:induction false} EveryChatPicked(chats: seq<ClientChat>, startOfToday: int, sevenDaysAgo: int)
    ensures multiset(chats) == multiset(Pick(chats, Today, startOfToday, sevenDaysAgo))
            + multiset(Pick(chats, Week, startOfToday, sevenDaysAgo))
            + multiset(Pick(chats, Older, startOfToday, sevenDaysAgo))
  {
    if chats == [] {
      return;
    }
    var front, last := chats[..|chats| - 1], chats[|chats| - 1];
    assert chats == front + [last];
    EveryChatPicked(front, startOfToday, sevenDaysAgo);
    hide Pick, GroupOf;
    PickLast(front, last, Today, startOfToday, sevenDaysAgo);
    PickLast(front, last, Week, startOfToday, sevenDaysAgo);
    PickLast(front, last, Older, startOfToday, sevenDaysAgo);
    OneMore(front, Pick(front, Today, startOfToday, sevenDaysAgo), Pick(front, Week, startOfToday, sevenDaysAgo),
            Pick(front, Older, startOfToday, sevenDaysAgo), GroupOf(last, startOfToday, sevenDaysAgo), last);
  }

  lemma OneMore(front: seq<ClientChat>, today: seq<ClientChat>, week: seq<ClientChat>, older: seq<ClientChat>,
                g: Group, last: ClientChat)
    requires multiset(front) == multiset(today) + multiset(week) + multiset(older)
    ensures multiset(front + [last]) == multiset(today + (if g == Today then [last] else []))
            + multiset(week + (if g == Week then [last] else []))
            + multiset(older + (if g == Older then [last] else []))
  {
  }

  /** Which chats are in which group, and that every chat is in one. */
  lemma GroupsByPeriod(chats: seq<ClientChat>, startOfToday: int, sevenDaysAgo: int, c: ClientChat)
    ensures c in Pick(chats, Today, startOfToday, sevenDaysAgo) <==> c in chats && startOfToday <= c.updatedAt / 1000
    ensures c in Pick(chats, Week, startOfToday, sevenDaysAgo) <==>
              c in chats && sevenDaysAgo <= c.updatedAt / 1000 < startOfToday
    ensures c in Pick(chats, Older, startOfToday, sevenDaysAgo) <==>
              c in chats && c.updatedAt / 1000 < startOfToday && c.updatedAt / 1000 < sevenDaysAgo
    ensures multiset(chats) == multiset(Pick(chats, Today, startOfToday, sevenDaysAgo))
            + multiset(Pick(chats, Week, startOfToday, sevenDaysAgo))
            + multiset(Pick(chats, Older, startOfToday, sevenDaysAgo))
  {
    Picked(chats, Today, startOfToday, sevenDaysAgo, c);
    Picked(chats, Week, startOfToday, sevenDaysAgo, c);
    Picked(chats, Older, startOfToday, sevenDaysAgo, c);
    EveryChatPicked(chats, startOfToday, sevenDaysAgo);
    hide Pick;
  }

  /** Three lists filled in one pass. */
  method GroupChatsByUpdatedAt(chats: seq<ClientChat>, startOfToday: int, sevenDaysAgo: int)
    returns (today: seq<ClientChat>, week: seq<ClientChat>, older: seq<ClientChat>)
    ensures forall c :: c in today <==> c in chats && startOfToday <= c.updatedAt / 1000
    ensures forall c :: c in week <==> c in chats && sevenDaysAgo <= c.updatedAt / 1000 < startOfToday
    ensures forall c :: c in older <==>
                          c in chats && c.updatedAt / 1000 < startOfToday && c.updatedAt / 1000 < sevenDaysAgo
    ensures multiset(today) + multiset(week) + multiset(older) == multiset(chats)
    ensures today == Pick(chats, Today, startOfToday, sevenDaysAgo)
    ensures week == Pick(chats, Week, startOfToday, sevenDaysAgo)
    ensures older == Pick(chats, Older, startOfToday, sevenDaysAgo)
  {
    today, week, older := [], [], [];
    for i := 0 to |chats|
      invariant today == Pick(chats[..i], Today, startOfToday, sevenDaysAgo)
      invariant week == Pick(chats[..i], Week, startOfToday, sevenDaysAgo)
      invariant older == Pick(chats[..i], Older, startOfToday, sevenDaysAgo)
    {
      var chat := chats[i];
      assert chats[..i + 1][..i] == chats[..i];
      if Millis(chat.updatedAt) >= startOfToday {
        today := today + [chat];
      } else if Millis(chat.updatedAt) >= sevenDaysAgo {
        week := week + [chat];
      } else {
        older := older + [chat];
      }
    }
    assert chats[..|chats|] == chats;
    EveryChatPicked(chats, startOfToday, sevenDaysAgo);
    hide Pick;
    forall c
      ensures c in today <==> c in chats && startOfToday <= c.updatedAt / 1000
      ensures c in week <==> c in chats && sevenDaysAgo <= c.updatedAt / 1000 < startOfToday
      ensures c in older <==>
                c in chats && c.updatedAt / 1000 < startOfToday && c.updatedAt / 1000 < sevenDaysAgo
    {
      GroupsByPeriod(chats, startOfToday, sevenDaysAgo, c);
    }
  }

  /** No chat further down the list is newer. */
  lemma LastIsOldest(chats: seq<ClientChat>)
    requires Descending(chats) && chats != []
    ensures forall c | c in chats[..|chats| - 1] :: Millis(chats[|chats| - 1].updatedAt) <= Millis(c.updatedAt)
  {
  }

  /** Nobody in the list belongs to g, so its piece is empty. */
  lemma {:induction false} PickNone(chats: seq<ClientChat>, g: Group, startOfToday: int, sevenDaysAgo: int)
    requires forall c | c in chats :: GroupOf(c, startOfToday, sevenDaysAgo) != g
    ensures Pick(chats, g, startOfToday, sevenDaysAgo) == []
  {
    if chats != [] {
      PickNone(chats[..|chats| - 1], g, startOfToday, sevenDaysAgo);
    }
  }

  /** The pieces behind the group of the last chat are empty. */
  lemma LaterGroupsEmpty(front: seq<ClientChat>, last: ClientChat, startOfToday: int, sevenDaysAgo: int)
    requires sevenDaysAgo <= startOfToday
    requires forall c | c in front :: Millis(last.updatedAt) <= Millis(c.updatedAt)
    ensures GroupOf(last, startOfToday, sevenDaysAgo) == Today ==> Pick(front, Week, startOfToday, sevenDaysAgo) == []
    ensures GroupOf(last, startOfToday, sevenDaysAgo) != Older ==> Pick(front, Older, startOfToday, sevenDaysAgo) == []
  {
    if GroupOf(last, startOfToday, sevenDaysAgo) == Today {
      PickNone(front, Week, startOfToday, sevenDaysAgo);
    }
    if GroupOf(last, startOfToday, sevenDaysAgo) != Older {
      PickNone(front, Older, startOfToday, sevenDaysAgo);
    }
  }

  lemma PickLast(front: seq<ClientChat>, last: ClientChat, g: Group, startOfToday: int, sevenDaysAgo: int)
    ensures Pick(front + [last], g, startOfToday, sevenDaysAgo)
            == Pick(front, g, startOfToday, sevenDaysAgo)
              + (if GroupOf(last, startOfToday, sevenDaysAgo) == g then [last] else [])
  {
    assert (front + [last])[..|front|] == front;
  }

  lemma AppendToPieces(today: seq<ClientChat>, week: seq<ClientChat>, older: seq<ClientChat>, g: Group,
                       last: ClientChat)
    requires g == Today ==> week == []
    requires g != Older ==> older == []
    ensures (today + (if g == Today then [last] else [])) + (week + (if g == Week then [last] else []))
            + (older + (if g == Older then [last] else [])) == today + week + older + [last]
  {
  }

  /** Of a list in descending order the three groups are consecutive pieces: put together they are the list. */
  lemma {:induction false} GroupsRejoin(chats: seq<ClientChat>, startOfToday: int, sevenDaysAgo: int)
    requires sevenDaysAgo <= startOfToday && Descending(chats)
    ensures Pick(chats, Today, startOfToday, sevenDaysAgo) + Pick(chats, Week, startOfToday, sevenDaysAgo)
            + Pick(chats, Older, startOfToday, sevenDaysAgo) == chats
  {
    if chats == [] {
      return;
    }
    var front, last := chats[..|chats| - 1], chats[|chats| - 1];
    assert chats == front + [last];
    GroupsRejoin(front, startOfToday, sevenDaysAgo);
    LastIsOldest(chats);
    hide Descending, GroupOf, Pick;
    LaterGroupsEmpty(front, last, startOfToday, sevenDaysAgo);
    AppendToPieces(Pick(front, Today, startOfToday, sevenDaysAgo), Pick(front, Week, startOfToday, sevenDaysAgo),
                   Pick(front, Older, startOfToday, sevenDaysAgo), GroupOf(last, startOfToday, sevenDaysAgo), last);
    PickLast(front, last, Today, startOfToday, sevenDaysAgo);
    PickLast(front, last, Week, startOfToday, sevenDaysAgo);
    PickLast(front, last, Older, startOfToday, sevenDaysAgo);
  }
}
