/** How the string-keyed items stand for the rows of the structured table, and that every request the
    repository builds means on the items what the protocol's atomic action means on the rows. */
module Representation {
  import opened Text
  import opened Time
  import opened Uuids
  import opened Domain
  import opened Sorting
  import opened Store
  import opened Encoding
  import opened Database

  // ----- what the strings stand for

  /** The row is one that can be written under this key. */
  predicate RowHasKey(k: Key, row: Row) {
    StorableRow(row) &&
    if k.ChatKey? then row.ChatRow? && row.chat.chatId == k.chatId else row.MessageRow? && KeyOf(row.message) == k
  }

  /** The items are exactly the encoded rows, each under its encoded key. */
  ghost predicate Represents(items: Items, t: Table) {
    && (forall k | k in t :: RowHasKey(k, t[k]))
    && (forall k | k in t :: Encode(k) in items && items[Encode(k)] == EncodeRow(t[k]))
    && (forall s | s in items :: exists k :: k in t && Encode(k) == s)
  }

  lemma AbsentKey(items: Items, t: Table, k: Key)
    requires Represents(items, t)
    ensures Encode(k) in items <==> k in t
  {
    hide Encode, EncodeRow;
    if Encode(k) in items {
      var j :| j in t && Encode(j) == Encode(k);
      EncodeInjective(j, k);
    }
  }

  lemma RowIsStorable(k: Key, row: Row)
    requires RowHasKey(k, row)
    ensures StorableRow(row)
  {
  }

  lemma PutRepresents(items: Items, t: Table, k: Key, row: Row)
    requires Represents(items, t) && RowHasKey(k, row)
    ensures Represents(items[Encode(k) := EncodeRow(row)], t[k := row])
  {
    hide Encode, EncodeRow, RowHasKey, StorableRow;
    RowIsStorable(k, row);
    var items', t' := items[Encode(k) := EncodeRow(row)], t[k := row];
    forall j | j in t' ensures StorableRow(t'[j]) {
      RowIsStorable(j, t'[j]);
    }
    forall j | j in t' ensures Encode(j) in items' && items'[Encode(j)] == EncodeRow(t'[j]) {
      EncodeInjective(j, k);
    }
    forall s | s in items' ensures exists j :: j in t' && Encode(j) == s {
      if s == Encode(k) {
        assert k in t';
      } else {
        var j :| j in t && Encode(j) == s;
        assert j in t';
      }
    }
  }

  // ----- saving

  function ChatPut(chat: Chat, condition: Condition): Put {
    Put(Encode(ChatKey(chat.chatId)), EncodeChat(chat), condition)
  }

  function MessagePut(m: Message): Put
    requires StorableMessage(m)
  {
    Put(Encode(KeyOf(m)), EncodeMessage(m), NotExists)
  }

  function StartPuts(chat: Chat, user: Message, llm: Message): seq<Put>
    requires StorableMessage(user) && StorableMessage(llm)
  {
    [ChatPut(chat, NotExists), MessagePut(user), MessagePut(llm)]
  }

  function ExchangePuts(chat: Chat, user: Message, llm: Message): seq<Put>
    requires StorableMessage(user) && StorableMessage(llm)
  {
    [ChatPut(chat, VersionAndUser(chat.version - 1, UuidText(chat.userId))), MessagePut(user), MessagePut(llm)]
  }

  lemma ThreeDistinct(a: Put, b: Put, c: Put)
    ensures DistinctPuts([a, b, c]) <==> a.key != b.key && a.key != c.key && b.key != c.key
  {
    var puts := [a, b, c];
    assert puts[0] == a && puts[1] == b && puts[2] == c;
  }

  lemma TurnPuts(items: Items, t: Table, chat: Chat, user: Message, llm: Message, condition: Condition)
    requires Represents(items, t) && StorableMessage(user) && StorableMessage(llm)
    ensures var puts := [ChatPut(chat, condition), MessagePut(user), MessagePut(llm)];
            && Represents(PutAll(items, puts), PutTurn(t, chat, user, llm))
            && (DistinctPuts(puts) <==> KeyOf(user) != KeyOf(llm))
  {
    hide Encode, EncodeChat, EncodeMessage, Represents, PutAll;
    var a, b, c := ChatPut(chat, condition), MessagePut(user), MessagePut(llm);
    var k := ChatKey(chat.chatId);
    PutRepresents(items, t, k, ChatRow(chat));
    var items1, t1 := items[a.key := a.item], t[k := ChatRow(chat)];
    PutRepresents(items1, t1, KeyOf(user), MessageRow(user));
    var items2, t2 := items1[b.key := b.item], t1[KeyOf(user) := MessageRow(user)];
    PutRepresents(items2, t2, KeyOf(llm), MessageRow(llm));
    ThreePuts(items, a, b, c);
    ThreeDistinct(a, b, c);
    EncodeInjective(k, KeyOf(user));
    EncodeInjective(k, KeyOf(llm));
    EncodeInjective(KeyOf(user), KeyOf(llm));
  }

  lemma ThreePuts(items: Items, a: Put, b: Put, c: Put)
    ensures PutAll(items, [a, b, c]) == items[a.key := a.item][b.key := b.item][c.key := c.item]
  {
    assert [a, b, c][..2] == [a, b] && [a, b][..1] == [a] && [a][..0] == [];
    assert PutAll(items, [a]) == items[a.key := a.item];
    assert PutAll(items, [a, b]) == items[a.key := a.item][b.key := b.item];
  }

  lemma StartConditions(items: Items, t: Table, chat: Chat, user: Message, llm: Message)
    requires Represents(items, t) && StorableMessage(user) && StorableMessage(llm)
    ensures AllHold(items, StartPuts(chat, user, llm)) && DistinctPuts(StartPuts(chat, user, llm)) <==>
              StartAccepted(t, chat, user, llm)
  {
    hide Encode, EncodeChat, EncodeMessage, PutAll, Represents;
    AbsentKey(items, t, ChatKey(chat.chatId));
    AbsentKey(items, t, KeyOf(user));
    AbsentKey(items, t, KeyOf(llm));
    TurnPuts(items, t, chat, user, llm, NotExists);
    var puts := StartPuts(chat, user, llm);
    assert AllHold(items, puts) <==> Holds(items, puts[0]) && Holds(items, puts[1]) && Holds(items, puts[2]);
  }

  /** The version and owner condition, read off the row it is evaluated against. */
  lemma RowCondition(items: Items, t: Table, c: Uuid, version: int, user: Uuid)
    requires Represents(items, t) && ChatKey(c) in t
    ensures var k := Encode(ChatKey(c));
            && k in items && items[k].ChatItem? && t[ChatKey(c)].ChatRow?
            && (items[k].version == version <==> t[ChatKey(c)].chat.version == version)
            && (items[k].userId == UuidText(user) <==> t[ChatKey(c)].chat.userId == user)
            && items[k] == EncodeChat(t[ChatKey(c)].chat)
  {
    hide Encode, UuidText, UserPk, IndexSortKey, FormatInstant;
    assert RowHasKey(ChatKey(c), t[ChatKey(c)]);
    UuidTextOrder(t[ChatKey(c)].chat.userId, user);
  }

  lemma ExchangeConditions(items: Items, t: Table, chat: Chat, user: Message, llm: Message)
    requires Represents(items, t) && StorableMessage(user) && StorableMessage(llm)
    ensures AllHold(items, ExchangePuts(chat, user, llm)) && DistinctPuts(ExchangePuts(chat, user, llm)) <==>
              ExchangeAccepted(t, chat, user, llm)
  {
    hide Encode, EncodeChat, EncodeMessage, PutAll, Represents, UuidText;
    var k := ChatKey(chat.chatId);
    AbsentKey(items, t, k);
    AbsentKey(items, t, KeyOf(user));
    AbsentKey(items, t, KeyOf(llm));
    TurnPuts(items, t, chat, user, llm, VersionAndUser(chat.version - 1, UuidText(chat.userId)));
    if k in t {
      RowCondition(items, t, chat.chatId, chat.version - 1, chat.userId);
    }
    var puts := ExchangePuts(chat, user, llm);
    assert AllHold(items, puts) <==> Holds(items, puts[0]) && Holds(items, puts[1]) && Holds(items, puts[2]);
  }

  // ----- reading

  lemma MessageSortKeys(k: Key)
    ensures MESSAGE_PREFIX <= SortKey(k) <==> k.MessageKey?
  {
  }

  function HitOf(k: Key): Hit {
    Hit(SortKey(k), Encode(k))
  }

  /** Within a chat, hits are read in the order of their keys. */
  lemma HitOrder(a: Key, b: Key)
    requires a.chatId == b.chatId
    ensures HitLess(HitOf(a), HitOf(b)) <==> KeyLess(a, b)
  {
    hide SortKey, KeyLess, ChatPk;
    SortKeyOrder(a, b);
    LexIrreflexive(ChatPk(a.chatId));
    LexIrreflexive(SortKey(a));
  }

  function HitsOf(keys: seq<Key>): seq<Hit> {
    seq(|keys|, i requires 0 <= i < |keys| => HitOf(keys[i]))
  }

  lemma HitsAppend(a: seq<Key>, b: seq<Key>)
    ensures HitsOf(a + b) == HitsOf(a) + HitsOf(b)
  {
  }

  ghost predicate Selects(t: Table, c: Uuid, prefix: string, keys: set<Key>) {
    forall k: Key :: k in keys <==> k in t && k.chatId == c && prefix <= SortKey(k)
  }

  /** Every matching row of the partition, once, in the order of the structured keys. */
  lemma PartitionAnswer(items: Items, t: Table, c: Uuid, prefix: string, keys: set<Key>)
    requires Represents(items, t) && Selects(t, c, prefix, keys)
    ensures StrictTotal(KeyLess)
    ensures Answer(items, PartitionQuery(ChatPk(c), prefix)) == HitsOf(InOrder(keys, KeyLess))
  {
    hide HitOf, Represents, ChatPk, KeyLess, Hits;
    KeyOrderIsTotal();
    var r := PartitionQuery(ChatPk(c), prefix);
    BeforeIsTotal(r);
    InOrderIsOrdered(keys, KeyLess);
    var ordered := InOrder(keys, KeyLess);
    var hits := HitsOf(ordered);
    OrderedHitsAscend(ordered, c, r);
    forall h ensures h in hits <==> h in Hits(items, r) {
      HitsArePartition(items, t, c, prefix, h);
      HitListed(ordered, h);
    }
    IsInOrder(hits, Hits(items, r), BeforeIn(r));
  }

  lemma HitListed(keys: seq<Key>, h: Hit)
    ensures h in HitsOf(keys) <==> exists k :: k in keys && h == HitOf(k)
  {
    hide HitOf;
    var hits := HitsOf(keys);
    if h in hits {
      var i :| 0 <= i < |hits| && hits[i] == h;
      assert keys[i] in keys && h == HitOf(keys[i]);
    }
    if exists k :: k in keys && h == HitOf(k) {
      var k :| k in keys && h == HitOf(k);
      var i :| 0 <= i < |keys| && keys[i] == k;
      assert hits[i] == h;
    }
  }

  lemma OrderedHitsAscend(ordered: seq<Key>, c: Uuid, r: Request)
    requires Sorting.Ascending(ordered, KeyLess) && r.PartitionQuery?
    requires forall k | k in ordered :: k.chatId == c
    ensures Sorting.Ascending(HitsOf(ordered), BeforeIn(r))
  {
    hide Encode, SortKey, KeyLess;
    var hits := HitsOf(ordered);
    forall i, j | 0 <= i < j < |hits| ensures BeforeIn(r)(hits[i], hits[j]) {
      assert KeyLess(ordered[i], ordered[j]);
      SortKeyOrder(ordered[i], ordered[j]);
    }
  }

  lemma HitsArePartition(items: Items, t: Table, c: Uuid, prefix: string, h: Hit)
    requires Represents(items, t)
    ensures h in Hits(items, PartitionQuery(ChatPk(c), prefix)) <==>
            exists k: Key :: k in t && k.chatId == c && prefix <= SortKey(k) && h == HitOf(k)
  {
    hide SortKey, ChatPk, EncodeRow;
    if h in Hits(items, PartitionQuery(ChatPk(c), prefix)) {
      var k :| k in t && Encode(k) == h.key;
      EncodeInjective(k, ChatKey(c));
      assert k in t && k.chatId == c && prefix <= SortKey(k) && h == HitOf(k);
    }
  }

  // ----- the user index

  /** What the index sorts a chat by. */
  datatype Recent = Recent(lastUpdatedAt: Instant, chatId: Uuid)

  predicate MoreRecent(a: Recent, b: Recent) {
    b.lastUpdatedAt < a.lastUpdatedAt || (b.lastUpdatedAt == a.lastUpdatedAt && b.chatId < a.chatId)
  }

  lemma RecencyIsTotal()
    ensures StrictTotal(MoreRecent)
  {
    assert forall x, y: Recent | x != y :: MoreRecent(x, y) || MoreRecent(y, x);
  }

  predicate IsChatOf(t: Table, k: Key, u: Uuid) {
    k in t && k.ChatKey? && t[k].ChatRow? && t[k].chat.userId == u
  }

  function RecentOf(chat: Chat): Recent {
    Recent(chat.lastUpdatedAt, chat.chatId)
  }

  function ChatsOf(t: Table, u: Uuid): set<Recent> {
    set k | k in t && k.ChatKey? && t[k].ChatRow? && t[k].chat.userId == u :: RecentOf(t[k].chat)
  }

  /** A user's chats by last update and chat id, latest first. */
  ghost function LatestFirst(t: Table, u: Uuid): seq<Recent> {
    RecencyIsTotal();
    InOrder(ChatsOf(t, u), MoreRecent)
  }

  function IndexHit(r: Recent): Hit {
    Hit(IndexSortKey(r.lastUpdatedAt, r.chatId), Encode(ChatKey(r.chatId)))
  }

  function IndexHits(rs: seq<Recent>): seq<Hit> {
    seq(|rs|, i requires 0 <= i < |rs| => IndexHit(rs[i]))
  }

  lemma IndexHitsOf(items: Items, t: Table, u: Uuid, h: Hit)
    requires Represents(items, t)
    ensures h in Hits(items, UserQuery(UserPk(u))) <==>
              exists k :: IsChatOf(t, k, u) && h == IndexHit(RecentOf(t[k].chat))
  {
    hide SortKey, ChatPk, UserPk, IndexSortKey, UuidText, FormatInstant;
    if h in Hits(items, UserQuery(UserPk(u))) {
      var k :| k in t && Encode(k) == h.key;
      assert RowHasKey(k, t[k]) && items[h.key] == EncodeRow(t[k]);
      UserPkInjective(t[k].chat.userId, u);
      assert IsChatOf(t, k, u) && h == IndexHit(RecentOf(t[k].chat));
    }
    if exists k :: IsChatOf(t, k, u) && h == IndexHit(RecentOf(t[k].chat)) {
      var k :| IsChatOf(t, k, u) && h == IndexHit(RecentOf(t[k].chat));
      assert RowHasKey(k, t[k]) && items[Encode(k)] == EncodeRow(t[k]);
    }
  }

  lemma RecentListed(t: Table, u: Uuid, rs: seq<Recent>, h: Hit)
    requires forall r :: r in rs <==> r in ChatsOf(t, u)
    ensures h in IndexHits(rs) <==> exists k :: IsChatOf(t, k, u) && h == IndexHit(RecentOf(t[k].chat))
  {
    hide IndexHit;
    var hits := IndexHits(rs);
    if h in hits {
      var i :| 0 <= i < |hits| && hits[i] == h;
      assert rs[i] in ChatsOf(t, u);
      var k :| k in t && k.ChatKey? && t[k].ChatRow? && t[k].chat.userId == u && rs[i] == RecentOf(t[k].chat);
      assert IsChatOf(t, k, u);
    }
    if exists k :: IsChatOf(t, k, u) && h == IndexHit(RecentOf(t[k].chat)) {
      var k :| IsChatOf(t, k, u) && h == IndexHit(RecentOf(t[k].chat));
      assert RecentOf(t[k].chat) in rs;
      var i :| 0 <= i < |rs| && rs[i] == RecentOf(t[k].chat);
      assert hits[i] == h;
    }
  }

  lemma RecentHitsAscend(rs: seq<Recent>, r: Request)
    requires Sorting.Ascending(rs, MoreRecent) && r.UserQuery?
    ensures Sorting.Ascending(IndexHits(rs), BeforeIn(r))
  {
    hide Encode, IndexSortKey, MoreRecent;
    var hits := IndexHits(rs);
    forall i, j | 0 <= i < j < |hits| ensures BeforeIn(r)(hits[i], hits[j]) {
      assert MoreRecent(rs[i], rs[j]);
      RecencyIsTextOrder(rs[i], rs[j]);
    }
  }

  lemma RecencyIsTextOrder(a: Recent, b: Recent)
    ensures MoreRecent(a, b) <==> LexLess(IndexHit(b).sort, IndexHit(a).sort)
  {
    hide IndexSortKey;
    IndexSortKeyOrder(b.lastUpdatedAt, b.chatId, a.lastUpdatedAt, a.chatId);
  }

  /** The index answers a user's query with exactly the chat rows of that user, latest update first. */
  lemma IndexAgreement(items: Items, t: Table, u: Uuid)
    requires Represents(items, t)
    ensures Answer(items, UserQuery(UserPk(u))) == IndexHits(LatestFirst(t, u))
  {
    hide IndexHit, Represents, MoreRecent, UserPk, Hits, ChatsOf, IsChatOf;
    RecencyIsTotal();
    var r := UserQuery(UserPk(u));
    BeforeIsTotal(r);
    InOrderIsOrdered(ChatsOf(t, u), MoreRecent);
    var rs := LatestFirst(t, u);
    RecentHitsAscend(rs, r);
    forall h ensures h in IndexHits(rs) <==> h in Hits(items, r) {
      IndexHitsOf(items, t, u, h);
      RecentListed(t, u, rs, h);
    }
    IsInOrder(IndexHits(rs), Hits(items, r), BeforeIn(r));
  }

  // ----- rename and removal

  lemma RenameRepresents(items: Items, t: Table, c: Uuid, title: string)
    requires Represents(items, t) && ChatKey(c) in t
    ensures var k := Encode(ChatKey(c));
            k in items && items[k].ChatItem? && t[ChatKey(c)].ChatRow? &&
              Represents(items[k := items[k].(title := title)], PutTitle(t, c, title))
  {
    hide Encode, Represents, UuidText, UserPk, IndexSortKey, FormatInstant;
    RowCondition(items, t, c, 0, 0);
    var chat := t[ChatKey(c)].chat;
    assert chat.chatId == c by {
      RepresentedRow(items, t, ChatKey(c));
    }
    PutRepresents(items, t, ChatKey(c), ChatRow(chat.(title := title)));
  }

  lemma RepresentedRow(items: Items, t: Table, k: Key)
    requires Represents(items, t) && k in t
    ensures RowHasKey(k, t[k]) && Encode(k) in items && items[Encode(k)] == EncodeRow(t[k])
  {
    hide Encode, EncodeRow;
  }

  /** Removing items by key is removing the rows they stand for. */
  lemma RemovalRepresents(items: Items, t: Table, keys: set<Key>, gone: set<PrimaryKey>)
    requires Represents(items, t)
    requires forall k :: Encode(k) in gone <==> k in keys
    ensures Represents(items - gone, t - keys)
  {
    hide Encode, EncodeRow;
    forall s | s in items - gone ensures exists k :: k in t - keys && Encode(k) == s {
      var k :| k in t && Encode(k) == s;
      assert k in t - keys;
    }
  }

  lemma {:induction false} TableOf(t: Table, keys: set<Key>) returns (items: Items)
    requires keys <= t.Keys && forall k | k in keys :: RowHasKey(k, t[k])
    ensures forall s :: s in items <==> exists k :: k in keys && Encode(k) == s
    ensures forall k | k in keys :: Encode(k) in items && RowHasKey(k, t[k]) && items[Encode(k)] == EncodeRow(t[k])
    decreases |keys|
  {
    hide Encode, EncodeRow;
    if keys == {} {
      items := map[];
      return;
    }
    var k :| k in keys;
    items := TableOf(t, keys - {k});
    forall j | j in keys ensures Encode(j) == Encode(k) <==> j == k {
      EncodeInjective(j, k);
    }
    items := items[Encode(k) := EncodeRow(t[k])];
  }

  /** Any table whose rows are under their own keys can be stored. */
  lemma TableIsStorable(t: Table)
    requires forall k | k in t :: RowHasKey(k, t[k])
    ensures exists items :: Represents(items, t)
  {
    hide Encode, EncodeRow;
    var items := TableOf(t, t.Keys);
    assert Represents(items, t);
  }
}
