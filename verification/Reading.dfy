/** Reading chats and messages while other requests run: the pages of one query are read at different moments. */
module Reading {
  import opened Text
  import opened Time
  import opened Uuids
  import opened Citations
  import opened Domain
  import opened Sorting
  import opened Store
  import opened World
  import opened Protocol
  import opened Encoding
  import opened Database
  import opened Representation
  import opened UseCases
  import opened Repository

  // ----- the items at a moment

  lemma RowsUnderTheirKeys(w: World)
    requires Consistent(w)
    ensures forall k | k in w.table :: RowHasKey(k, w.table[k])
  {
    forall k | k in w.table ensures RowHasKey(k, w.table[k]) {
      assert Accounted(w, k) && GoodLogOf(w, k.chatId);
    }
  }

  lemma OnlyItems(a: Items, b: Items, t: Table)
    requires Represents(a, t) && Represents(b, t)
    ensures a == b
  {
    hide Encode, EncodeRow;
    forall s ensures s in a <==> s in b {
      if s in a {
        var k :| k in t && Encode(k) == s;
      }
      if s in b {
        var k :| k in t && Encode(k) == s;
      }
    }
    forall s | s in a ensures a[s] == b[s] {
      var k :| k in t && Encode(k) == s;
    }
  }

  /** The items that represent the table after a schedule. */
  ghost function ItemsAfter(steps: seq<Step>): (items: Items)
    ensures Represents(items, Run(steps).world.table)
  {
    RunKeeps(steps);
    RowsUnderTheirKeys(Run(steps).world);
    TableIsStorable(Run(steps).world.table);
    var items :| Represents(items, Run(steps).world.table);
    items
  }

  lemma ItemsNow(items: Items, steps: seq<Step>)
    requires Represents(items, Run(steps).world.table)
    ensures items == ItemsAfter(steps)
  {
    OnlyItems(items, ItemsAfter(steps), Run(steps).world.table);
  }

  // ----- there are only so many hits

  function RecentRank(r: Recent): int {
    r.lastUpdatedAt * SPAN + r.chatId
  }

  lemma RecentRankOrder(a: Recent, b: Recent)
    ensures 0 <= RecentRank(a) < RANKS
    ensures MoreRecent(a, b) ==> RecentRank(b) < RecentRank(a)
  {
  }

  /** A hit of this query: one of its keys, or an entry of the index. */
  ghost predicate Possible(r: Request, h: Hit) {
    if r.PartitionQuery? then h.key.pk == r.pk && exists k :: h == HitOf(k) else exists x :: h == IndexHit(x)
  }

  ghost function KeyOfHit(h: Hit): (k: Key)
    requires exists k :: h == HitOf(k)
    ensures h == HitOf(k)
  {
    var k :| h == HitOf(k);
    k
  }

  ghost function RecentOfHit(h: Hit): (x: Recent)
    requires exists x :: h == IndexHit(x)
    ensures h == IndexHit(x)
  {
    var x :| h == IndexHit(x);
    x
  }

  /** How many hits can come behind this one. */
  ghost function Remaining(r: Request, h: Hit): (n: nat)
    requires Possible(r, h)
    ensures n < RANKS
  {
    if r.PartitionQuery? then RankOrder(KeyOfHit(h), KeyOfHit(h)); RANKS - 1 - Rank(KeyOfHit(h))
    else RecentRankOrder(RecentOfHit(h), RecentOfHit(h)); RecentRank(RecentOfHit(h))
  }

  lemma RemainingShrinks(r: Request, a: Hit, b: Hit)
    requires Possible(r, a) && Possible(r, b) && Before(r, a, b)
    ensures Remaining(r, b) < Remaining(r, a)
  {
    hide Encode, SortKey, IndexSortKey, KeyLess, MoreRecent, Rank, RecentRank, HitOf, IndexHit;
    if r.PartitionQuery? {
      var j, k := KeyOfHit(a), KeyOfHit(b);
      SamePartition(r, j, k);
      HitOrder(j, k);
      RankOrder(j, k);
    } else {
      var x, y := RecentOfHit(a), RecentOfHit(b);
      IndexHitOrder(x, y);
      RecentRankOrder(x, y);
    }
  }

  lemma SamePartition(r: Request, j: Key, k: Key)
    requires r.PartitionQuery? && HitOf(j).key.pk == r.pk && HitOf(k).key.pk == r.pk
    ensures j.chatId == k.chatId
  {
    hide SortKey;
    EncodeInjective(j, k);
  }

  lemma IndexHitOrder(x: Recent, y: Recent)
    ensures HitLess(IndexHit(y), IndexHit(x)) <==> MoreRecent(x, y)
  {
    hide IndexSortKey, SortKey, ChatPk;
    RecencyIsTextOrder(x, y);
    IndexSortKeyOrder(x.lastUpdatedAt, x.chatId, y.lastUpdatedAt, y.chatId);
    if IndexHit(x).sort == IndexHit(y).sort {
      LexIrreflexive(ChatPk(x.chatId));
      LexIrreflexive(SortKey(ChatKey(x.chatId)));
    }
  }

  lemma HitIsPossible(items: Items, t: Table, r: Request, h: Hit)
    requires Represents(items, t) && h in Hits(items, r)
    ensures Possible(r, h)
  {
    hide Encode, SortKey, IndexSortKey, UserPk, UuidText, FormatInstant;
    var k :| k in t && Encode(k) == h.key;
    RepresentedRow(items, t, k);
    if r.PartitionQuery? {
      HitOfKey(k);
    } else {
      assert h == IndexHit(RecentOf(t[k].chat));
    }
  }

  lemma HitOfKey(k: Key)
    ensures HitOf(k) == Hit(Encode(k).sk, Encode(k))
  {
  }

  // ----- a query across moments

  /** The hit was stored at that moment with that item. */
  ghost predicate StoredAt(steps: seq<Step>, r: Request, h: Hit, item: Item) {
    h in Hits(ItemsAfter(steps), r) && h.key in ItemsAfter(steps) && ItemsAfter(steps)[h.key] == item
  }

  /** At some moment the hit was not stored while one of the answer that comes behind it was. */
  ghost predicate Overtaken(r: Request, begun: seq<Step>, after: seq<Step>, hits: seq<Hit>, h: Hit) {
    exists s, g ::
      begun <= s <= after && g in hits && Before(r, h, g) && h !in Hits(ItemsAfter(s), r) && g in Hits(ItemsAfter(s), r)
  }

  /** What the pages of one query, read one after the other between begun and after, add up to: hits in order, each
      stored with its item at its own moment, these moments in order too; and of what is stored at the end only
      what came in behind the pages is missing. */
  ghost predicate ReadAcross(r: Request, begun: seq<Step>, after: seq<Step>, hits: seq<Hit>, items: seq<Item>,
                             moments: seq<seq<Step>>) {
    && WereStored(r, begun, after, hits, items, moments)
    && Sorting.Ascending(hits, BeforeIn(r))
    && forall h | h in Hits(ItemsAfter(after), r) && h !in hits :: Overtaken(r, begun, after, hits, h)
  }

  ghost predicate WereStored(r: Request, begun: seq<Step>, after: seq<Step>, hits: seq<Hit>, items: seq<Item>,
                             moments: seq<seq<Step>>) {
    && |hits| == |items| == |moments|
    && (forall i | 0 <= i < |hits| :: begun <= moments[i] <= after && StoredAt(moments[i], r, hits[i], items[i]))
    && (forall i, j | 0 <= i <= j < |moments| :: moments[i] <= moments[j])
  }

  /** The state of such a query behind its cursor. */
  ghost predicate Midway(r: Request, begun: seq<Step>, after: seq<Step>, cursor: Option<Hit>, hits: seq<Hit>) {
    && Sorting.Ascending(hits, BeforeIn(r))
    && (forall h | h in hits :: cursor.Some? && !Before(r, cursor.value, h))
    && (cursor.Some? ==> cursor.value in hits && Possible(r, cursor.value))
    && (forall h | cursor.Some? && !Before(r, cursor.value, h) :: h in hits || Overtaken(r, begun, after, hits, h))
  }

  lemma OvertakenStays(r: Request, begun: seq<Step>, after: seq<Step>, later: seq<Step>, hits: seq<Hit>, more: seq<Hit>,
                       h: Hit)
    requires Overtaken(r, begun, after, hits, h) && after <= later && forall g | g in hits :: g in more
    ensures Overtaken(r, begun, later, more, h)
  {
    var s, g :| begun <= s <= after && g in hits && Before(r, h, g) && h !in Hits(ItemsAfter(s), r) &&
      g in Hits(ItemsAfter(s), r);
    assert s <= later && g in more;
  }

  lemma StillMidway(r: Request, begun: seq<Step>, after: seq<Step>, later: seq<Step>, cursor: Option<Hit>,
                    hits: seq<Hit>)
    requires Midway(r, begun, after, cursor, hits) && after <= later
    ensures Midway(r, begun, later, cursor, hits)
  {
    hide Overtaken, Before, Possible;
    forall h | cursor.Some? && !Before(r, cursor.value, h) ensures h in hits || Overtaken(r, begun, later, hits, h) {
      if h !in hits { OvertakenStays(r, begun, after, later, hits, hits, h); }
    }
  }

  lemma PageBehind(r: Request, begun: seq<Step>, after: seq<Step>, cursor: Option<Hit>, hits: seq<Hit>, page: seq<Hit>,
                   next: Option<Hit>)
    requires Midway(r, begun, after, cursor, hits) && IsPage(ItemsAfter(after), r, cursor, page, next)
    ensures Sorting.Ascending(hits + page, BeforeIn(r))
  {
    hide Hits, Before, Overtaken, Possible, ItemsAfter;
    BeforeIsTotal(r);
    forall h, p | h in hits && p in page ensures BeforeIn(r)(h, p) {
      assert BeforeIn(r)(cursor.value, p);
      assert h == cursor.value || BeforeIn(r)(h, cursor.value);
    }
    assert forall i | 0 <= i < |hits| :: hits[i] in hits;
    assert forall i | 0 <= i < |page| :: page[i] in page;
  }

  /** A hit behind the new cursor is in the answer or was overtaken by it. */
  lemma PagePasses(r: Request, begun: seq<Step>, after: seq<Step>, cursor: Option<Hit>, hits: seq<Hit>, page: seq<Hit>,
                   next: Hit, h: Hit)
    requires Midway(r, begun, after, cursor, hits) && IsPage(ItemsAfter(after), r, cursor, page, Some(next))
    requires begun <= after
    requires !Before(r, next, h) && h !in hits + page
    ensures Overtaken(r, begun, after, hits + page, h)
  {
    hide Before, Possible, ItemsAfter, Hits;
    BeforeIsTotal(r);
    if cursor.Some? && !Before(r, cursor.value, h) {
      OvertakenStays(r, begun, after, after, hits, hits + page, h);
    } else {
      assert next in page;
      assert BeforeIn(r)(h, next);
    }
  }

  lemma CursorAdvances(r: Request, cursor: Option<Hit>, hits: seq<Hit>, page: seq<Hit>, next: Hit, h: Hit)
    requires forall g | g in hits :: cursor.Some? && !Before(r, cursor.value, g)
    requires Sorting.Ascending(page, BeforeIn(r)) && page != [] && next == page[|page| - 1] && h in hits + page
    requires cursor.Some? ==> Before(r, cursor.value, next)
    ensures !Before(r, next, h)
  {
    hide HitLess;
    BeforeIsTotal(r);
    var less := BeforeIn(r);
    assert !less(next, next);
    if h in hits {
      NotBefore(less, cursor.value, next, h);
    } else {
      var i :| 0 <= i < |page| && page[i] == h;
      assert i < |page| - 1 ==> less(h, next);
      Asymmetric(less, h, next);
    }
  }

  lemma NotBefore(less: Order<Hit>, a: Hit, b: Hit, h: Hit)
    requires StrictTotal(less) && less(a, b) && !less(a, h)
    ensures !less(b, h)
  {
  }

  lemma Asymmetric(less: Order<Hit>, a: Hit, b: Hit)
    requires StrictTotal(less)
    ensures !(less(a, b) && less(b, a))
  {
    assert less(a, b) && less(b, a) ==> less(a, a);
  }

  lemma CursorPossible(r: Request, after: seq<Step>, cursor: Option<Hit>, page: seq<Hit>, next: Hit)
    requires IsPage(ItemsAfter(after), r, cursor, page, Some(next))
    ensures Sorting.Ascending(page, BeforeIn(r)) && page != [] && next == page[|page| - 1]
    ensures Possible(r, next) && (cursor.Some? ==> Before(r, cursor.value, next))
  {
    hide Before, Possible, Hits;
    assert next in page && next in Beyond(ItemsAfter(after), r, cursor);
    HitIsPossible(ItemsAfter(after), Run(after).world.table, r, next);
  }

  lemma PageExtends(r: Request, begun: seq<Step>, after: seq<Step>, cursor: Option<Hit>, hits: seq<Hit>, page: seq<Hit>,
                    next: Hit)
    requires Midway(r, begun, after, cursor, hits) && IsPage(ItemsAfter(after), r, cursor, page, Some(next))
    requires begun <= after
    ensures Midway(r, begun, after, Some(next), hits + page) && (cursor.Some? ==> Before(r, cursor.value, next))
  {
    PageBehind(r, begun, after, cursor, hits, page, Some(next));
    CursorPossible(r, after, cursor, page, next);
    hide Before, ItemsAfter, Overtaken, Possible, IsPage;
    forall h | !Before(r, next, h) ensures h in hits + page || Overtaken(r, begun, after, hits + page, h) {
      if h !in hits + page { PagePasses(r, begun, after, cursor, hits, page, next, h); }
    }
    forall h | h in hits + page ensures !Before(r, next, h) {
      CursorAdvances(r, cursor, hits, page, next, h);
    }
  }

  lemma LastPageTakesAll(items: Items, r: Request, cursor: Option<Hit>, page: seq<Hit>, h: Hit)
    requires IsPage(items, r, cursor, page, None) && h in Hits(items, r) && h !in page
    ensures cursor.Some? && !Before(r, cursor.value, h)
  {
    hide Before, Hits;
  }

  lemma LastPageExtends(r: Request, begun: seq<Step>, after: seq<Step>, cursor: Option<Hit>, hits: seq<Hit>,
                        page: seq<Hit>)
    requires Midway(r, begun, after, cursor, hits) && IsPage(ItemsAfter(after), r, cursor, page, None)
    ensures Sorting.Ascending(hits + page, BeforeIn(r))
    ensures forall h | h in Hits(ItemsAfter(after), r) && h !in hits + page ::
              Overtaken(r, begun, after, hits + page, h)
  {
    PageBehind(r, begun, after, cursor, hits, page, None);
    hide Before, Hits, ItemsAfter, Overtaken, Possible, IsPage, Sorting.Ascending;
    forall h | h in Hits(ItemsAfter(after), r) && h !in hits + page ensures Overtaken(r, begun, after, hits + page, h) {
      LastPageTakesAll(ItemsAfter(after), r, cursor, page, h);
      OvertakenStays(r, begun, after, after, hits, hits + page, h);
    }
  }

  lemma StoredNow(steps: seq<Step>, r: Request, h: Hit)
    requires h in Hits(ItemsAfter(steps), r)
    ensures h.key in ItemsAfter(steps) && StoredAt(steps, r, h, ItemsAfter(steps)[h.key])
  {
    hide Represents;
  }

  lemma StoredMore(r: Request, begun: seq<Step>, after: seq<Step>, hits: seq<Hit>, items: seq<Item>,
                   moments: seq<seq<Step>>, h: Hit, item: Item)
    requires WereStored(r, begun, after, hits, items, moments) && begun <= after && StoredAt(after, r, h, item)
    ensures WereStored(r, begun, after, hits + [h], items + [item], moments + [after])
  {
    hide StoredAt;
    var times := moments + [after];
    forall i, j | 0 <= i <= j < |times| ensures times[i] <= times[j] {
      assert i < |moments| ==> moments[i] <= after;
    }
  }

  lemma StoredStill(r: Request, begun: seq<Step>, after: seq<Step>, later: seq<Step>, hits: seq<Hit>, items: seq<Item>,
                    moments: seq<seq<Step>>)
    requires WereStored(r, begun, after, hits, items, moments) && after <= later
    ensures WereStored(r, begun, later, hits, items, moments)
  {
    hide StoredAt;
  }

  // ----- reading messages

  function MessageQuery(c: Uuid): Request {
    PartitionQuery(ChatPk(c), MESSAGE_PREFIX)
  }

  /** At that moment the record was that of the message under the key. */
  ghost predicate RecordAt(steps: seq<Step>, c: Uuid, k: Key, record: Record) {
    var t := Run(steps).world.table;
    k in MessageKeys(t, c) && t[k].MessageRow? && Tells(record, t[k].message)
  }

  /** At some moment the key was unused while one that was read and comes behind it was stored. */
  ghost predicate KeyOvertaken(begun: seq<Step>, after: seq<Step>, c: Uuid, keys: seq<Key>, k: Key) {
    exists s, g :: begun <= s <= after && g in keys && KeyLess(k, g)
                   && k !in MessageKeys(Run(s).world.table, c) && g in MessageKeys(Run(s).world.table, c)
  }

  /** What a reader of the chat is given: records in key order, each as stored at its own moment, and of the messages
      stored at the end only those missing that came in behind the pages. */
  ghost predicate MessagesRead(begun: seq<Step>, after: seq<Step>, c: Uuid, keys: seq<Key>, moments: seq<seq<Step>>,
                               records: seq<Record>) {
    && |keys| == |moments| == |records|
    && Sorting.Ascending(keys, KeyLess)
    && (forall i | 0 <= i < |keys| :: begun <= moments[i] <= after && RecordAt(moments[i], c, keys[i], records[i]))
    && (forall k | k in MessageKeys(Run(after).world.table, c) && k !in keys :: KeyOvertaken(begun, after, c, keys, k))
  }

  lemma MessageHits(steps: seq<Step>, c: Uuid, h: Hit)
    ensures h in Hits(ItemsAfter(steps), MessageQuery(c)) <==>
              exists k :: k in MessageKeys(Run(steps).world.table, c) && h == HitOf(k)
  {
    hide HitOf, Hits, Represents, ChatPk, SortKey, Run;
    var t := Run(steps).world.table;
    HitsArePartition(ItemsAfter(steps), t, c, MESSAGE_PREFIX, h);
    forall k: Key ensures MESSAGE_PREFIX <= SortKey(k) <==> k.MessageKey? {
      MessageSortKeys(k);
    }
  }

  lemma MessageStored(steps: seq<Step>, c: Uuid, h: Hit, item: Item) returns (k: Key)
    requires StoredAt(steps, MessageQuery(c), h, item)
    ensures h == HitOf(k) && item.MessageItem? && DecodeMessage(item).Some?
    ensures RecordAt(steps, c, k, DecodeMessage(item).value)
  {
    hide Represents, Hits, DecodeMessage, Tells, MessageQuery, Run, Encode, SortKey, SerializedCitations;
    hide FormatInstant, UuidText;
    MessageHits(steps, c, h);
    var t := Run(steps).world.table;
    k :| k in MessageKeys(t, c) && h == HitOf(k);
    RepresentedRow(ItemsAfter(steps), t, k);
    RecordRoundTrip(t[k].message);
  }

  lemma KeysAscend(keys: seq<Key>, c: Uuid)
    requires Sorting.Ascending(HitsOf(keys), BeforeIn(MessageQuery(c))) && AllIn(keys, c)
    ensures Sorting.Ascending(keys, KeyLess)
  {
    hide HitOf, KeyLess, HitLess;
    var hits := HitsOf(keys);
    forall i, j | 0 <= i < j < |keys| ensures KeyLess(keys[i], keys[j]) {
      assert BeforeIn(MessageQuery(c))(hits[i], hits[j]);
      HitOrder(keys[i], keys[j]);
    }
  }

  lemma OvertakenKey(begun: seq<Step>, after: seq<Step>, c: Uuid, keys: seq<Key>, k: Key)
    requires Overtaken(MessageQuery(c), begun, after, HitsOf(keys), HitOf(k)) && AllIn(keys, c) && k.chatId == c
    ensures KeyOvertaken(begun, after, c, keys, k)
  {
    hide HitOf, KeyLess, HitLess, Hits, Run, ItemsAfter, MessageKeys;
    var r := MessageQuery(c);
    var s, g :| begun <= s <= after && g in HitsOf(keys) && Before(r, HitOf(k), g)
                && HitOf(k) !in Hits(ItemsAfter(s), r) && g in Hits(ItemsAfter(s), r);
    HitListed(keys, g);
    var j :| j in keys && g == HitOf(j);
    HitOrder(k, j);
    MessageHits(s, c, HitOf(k));
    MessageHits(s, c, g);
    var i :| i in MessageKeys(Run(s).world.table, c) && g == HitOf(i);
    SameHit(i, j);
  }

  lemma SameHit(i: Key, j: Key)
    requires HitOf(i) == HitOf(j)
    ensures i == j
  {
    hide Encode, SortKey;
    EncodeInjective(i, j);
  }

  lemma ReadIsMessages(begun: seq<Step>, after: seq<Step>, c: Uuid, hits: seq<Hit>, items: seq<Item>,
                       moments: seq<seq<Step>>, keys: seq<Key>, records: seq<Record>)
    requires ReadAcross(MessageQuery(c), begun, after, hits, items, moments) && hits == HitsOf(keys)
    requires |records| == |keys|
    requires forall i | 0 <= i < |keys| :: RecordAt(moments[i], c, keys[i], records[i])
    ensures MessagesRead(begun, after, c, keys, moments, records)
  {
    hide HitOf, KeyLess, Before, Hits, Run, ItemsAfter, Overtaken, KeyOvertaken, StoredAt, MessageQuery, Tells;
    RecordsOfChat(c, keys, moments, records);
    KeysAscend(keys, c);
    hide RecordAt, MessageKeys;
    forall k | k in MessageKeys(Run(after).world.table, c) && k !in keys
      ensures KeyOvertaken(begun, after, c, keys, k)
    {
      MessageHits(after, c, HitOf(k));
      HitOfUnread(keys, k);
      KeyIsOf(after, c, k);
      OvertakenKey(begun, after, c, keys, k);
    }
  }

  lemma KeyIsOf(steps: seq<Step>, c: Uuid, k: Key)
    requires k in MessageKeys(Run(steps).world.table, c)
    ensures k.chatId == c
  {
  }

  lemma RecordsOfChat(c: Uuid, keys: seq<Key>, moments: seq<seq<Step>>, records: seq<Record>)
    requires |keys| == |moments| == |records|
    requires forall i | 0 <= i < |keys| :: RecordAt(moments[i], c, keys[i], records[i])
    ensures AllIn(keys, c)
  {
    hide Tells, Run;
  }

  lemma HitOfUnread(keys: seq<Key>, k: Key)
    requires k !in keys
    ensures HitOf(k) !in HitsOf(keys)
  {
    hide HitOf;
    HitListed(keys, HitOf(k));
    forall j | j in keys ensures HitOf(j) != HitOf(k) {
      if HitOf(k) == HitOf(j) { SameHit(k, j); }
    }
  }

  // ----- reading the chats of a user

  /** At that moment the summary was that of the user's chat under the index entry. */
  ghost predicate SummaryAt(steps: seq<Step>, u: Uuid, x: Recent, summary: Summary) {
    var t, k := Run(steps).world.table, ChatKey(x.chatId);
    IsChatOf(t, k, u) && RecentOf(t[k].chat) == x && Sums(summary, t[k].chat)
  }

  ghost predicate EntryAt(steps: seq<Step>, u: Uuid, x: Recent) {
    var t, k := Run(steps).world.table, ChatKey(x.chatId);
    IsChatOf(t, k, u) && RecentOf(t[k].chat) == x
  }

  /** At some moment the entry was not in the index while one that was read and comes behind it was. */
  ghost predicate EntryOvertaken(begun: seq<Step>, after: seq<Step>, u: Uuid, entries: seq<Recent>, x: Recent) {
    exists s, y :: begun <= s <= after && y in entries && MoreRecent(x, y) && !EntryAt(s, u, x) && EntryAt(s, u, y)
  }

  /** What a user is given as the list of chats: summaries in index order, latest first, each as stored at its own
      moment, these in order, and of the entries at the end only those missing that came in ahead of the pages. */
  ghost predicate ChatsRead(begun: seq<Step>, after: seq<Step>, u: Uuid, entries: seq<Recent>, moments: seq<seq<Step>>,
                            summaries: seq<Summary>) {
    && |entries| == |moments| == |summaries|
    && Sorting.Ascending(entries, MoreRecent)
    && (forall i | 0 <= i < |entries| ::
         begun <= moments[i] <= after && SummaryAt(moments[i], u, entries[i], summaries[i]))
    && (forall i, j | 0 <= i <= j < |moments| :: moments[i] <= moments[j])
    && (forall x | EntryAt(after, u, x) && x !in entries :: EntryOvertaken(begun, after, u, entries, x))
  }

  lemma EntryHits(steps: seq<Step>, u: Uuid, x: Recent)
    ensures IndexHit(x) in Hits(ItemsAfter(steps), UserQuery(UserPk(u))) <==> EntryAt(steps, u, x)
  {
    hide Represents, Hits, UserPk, Run, IndexHit;
    var t := Run(steps).world.table;
    IndexHitsOf(ItemsAfter(steps), t, u, IndexHit(x));
    if IndexHit(x) in Hits(ItemsAfter(steps), UserQuery(UserPk(u))) {
      var k :| IsChatOf(t, k, u) && IndexHit(x) == IndexHit(RecentOf(t[k].chat));
      SameEntry(x, RecentOf(t[k].chat));
      RepresentedRow(ItemsAfter(steps), t, k);
    }
    if EntryAt(steps, u, x) {
      assert IsChatOf(t, ChatKey(x.chatId), u);
    }
  }

  lemma SameEntry(x: Recent, y: Recent)
    requires IndexHit(x) == IndexHit(y)
    ensures x == y
  {
    hide IndexSortKey, Encode;
    IndexSortKeyOrder(x.lastUpdatedAt, x.chatId, y.lastUpdatedAt, y.chatId);
  }

  lemma EntryStored(steps: seq<Step>, u: Uuid, h: Hit, item: Item) returns (x: Recent)
    requires StoredAt(steps, UserQuery(UserPk(u)), h, item)
    ensures h == IndexHit(x) && item.ChatItem? && DecodeSummary(item).Some?
    ensures SummaryAt(steps, u, x, DecodeSummary(item).value)
  {
    hide Represents, Hits, UserPk, Run, DecodeSummary, Encode, IndexSortKey, FormatInstant, UuidText;
    var t := Run(steps).world.table;
    IndexHitsOf(ItemsAfter(steps), t, u, h);
    var k :| IsChatOf(t, k, u) && h == IndexHit(RecentOf(t[k].chat));
    x := RecentOf(t[k].chat);
    RepresentedRow(ItemsAfter(steps), t, k);
    SummaryRoundTrip(t[k].chat);
  }

  lemma EntriesAscend(entries: seq<Recent>, u: Uuid)
    requires Sorting.Ascending(IndexHits(entries), BeforeIn(UserQuery(UserPk(u))))
    ensures Sorting.Ascending(entries, MoreRecent)
  {
    hide IndexHit, HitLess, MoreRecent;
    var hits := IndexHits(entries);
    forall i, j | 0 <= i < j < |entries| ensures MoreRecent(entries[i], entries[j]) {
      assert BeforeIn(UserQuery(UserPk(u)))(hits[i], hits[j]);
      IndexHitOrder(entries[i], entries[j]);
    }
  }

  lemma EntryListed(entries: seq<Recent>, h: Hit)
    ensures h in IndexHits(entries) <==> exists x :: x in entries && h == IndexHit(x)
  {
    hide IndexHit;
    var hits := IndexHits(entries);
    if h in hits {
      var i :| 0 <= i < |hits| && hits[i] == h;
      assert entries[i] in entries && h == IndexHit(entries[i]);
    }
    if exists x :: x in entries && h == IndexHit(x) {
      var x :| x in entries && h == IndexHit(x);
      var i :| 0 <= i < |entries| && entries[i] == x;
      assert hits[i] == h;
    }
  }

  lemma EntryOfUnread(entries: seq<Recent>, x: Recent)
    requires x !in entries
    ensures IndexHit(x) !in IndexHits(entries)
  {
    hide IndexHit;
    EntryListed(entries, IndexHit(x));
    forall y | y in entries ensures IndexHit(y) != IndexHit(x) {
      if IndexHit(x) == IndexHit(y) { SameEntry(x, y); }
    }
  }

  lemma OvertakenEntry(begun: seq<Step>, after: seq<Step>, u: Uuid, entries: seq<Recent>, x: Recent)
    requires Overtaken(UserQuery(UserPk(u)), begun, after, IndexHits(entries), IndexHit(x))
    ensures EntryOvertaken(begun, after, u, entries, x)
  {
    hide IndexHit, HitLess, Hits, Run, ItemsAfter, EntryAt, MoreRecent, UserPk;
    var r := UserQuery(UserPk(u));
    var s, g :| begun <= s <= after && g in IndexHits(entries) && Before(r, IndexHit(x), g)
                && IndexHit(x) !in Hits(ItemsAfter(s), r) && g in Hits(ItemsAfter(s), r);
    EntryListed(entries, g);
    var y :| y in entries && g == IndexHit(y);
    IndexHitOrder(x, y);
    EntryHits(s, u, x);
    EntryHits(s, u, y);
  }

  lemma ReadIsChats(begun: seq<Step>, after: seq<Step>, u: Uuid, hits: seq<Hit>, items: seq<Item>,
                    moments: seq<seq<Step>>, entries: seq<Recent>, summaries: seq<Summary>)
    requires ReadAcross(UserQuery(UserPk(u)), begun, after, hits, items, moments) && hits == IndexHits(entries)
    requires |summaries| == |entries|
    requires forall i | 0 <= i < |entries| :: SummaryAt(moments[i], u, entries[i], summaries[i])
    ensures ChatsRead(begun, after, u, entries, moments, summaries)
  {
    hide IndexHit, MoreRecent, Before, Hits, Run, ItemsAfter, Overtaken, EntryOvertaken, StoredAt, UserPk, SummaryAt;
    hide EntryAt;
    EntriesAscend(entries, u);
    forall x | EntryAt(after, u, x) && x !in entries ensures EntryOvertaken(begun, after, u, entries, x) {
      EntryHits(after, u, x);
      EntryOfUnread(entries, x);
      OvertakenEntry(begun, after, u, entries, x);
    }
  }

  lemma RecordTime(steps: seq<Step>, c: Uuid, k: Key, record: Record)
    requires RecordAt(steps, c, k, record)
    ensures k.MessageKey? && k.chatId == c && record.sentAt == k.sentAt
  {
    RunKeeps(steps);
    RowsUnderTheirKeys(Run(steps).world);
    hide Run;
    assert RowHasKey(k, Run(steps).world.table[k]);
  }

  /** The records read come in the order of their times. */
  lemma OldestFirst(begun: seq<Step>, after: seq<Step>, c: Uuid, keys: seq<Key>, moments: seq<seq<Step>>,
                    records: seq<Record>)
    requires MessagesRead(begun, after, c, keys, moments, records)
    ensures forall i, j | 0 <= i < j < |records| :: records[i].sentAt <= records[j].sentAt
  {
    hide RecordAt;
    forall i | 0 <= i < |keys|
      ensures keys[i].MessageKey? && keys[i].chatId == c && records[i].sentAt == keys[i].sentAt
    {
      RecordTime(moments[i], c, keys[i], records[i]);
    }
    forall i, j | 0 <= i < j < |records| ensures records[i].sentAt <= records[j].sentAt {
      assert KeyLess(keys[i], keys[j]);
    }
  }

  /** The summaries read come with the latest update first. */
  lemma NewestFirst(begun: seq<Step>, after: seq<Step>, u: Uuid, entries: seq<Recent>, moments: seq<seq<Step>>,
                    summaries: seq<Summary>)
    requires ChatsRead(begun, after, u, entries, moments, summaries)
    ensures forall i, j | 0 <= i < j < |summaries| :: summaries[j].lastUpdatedAt <= summaries[i].lastUpdatedAt
  {
    forall i | 0 <= i < |entries| ensures summaries[i].lastUpdatedAt == entries[i].lastUpdatedAt {
      assert SummaryAt(moments[i], u, entries[i], summaries[i]);
    }
    hide SummaryAt;
    forall i, j | 0 <= i < j < |summaries| ensures summaries[j].lastUpdatedAt <= summaries[i].lastUpdatedAt {
      assert MoreRecent(entries[i], entries[j]);
    }
  }

  class ChatQueryRepository {
    const client: ChatTable

    constructor (client: ChatTable)
      ensures this.client == client
    {
      this.client := client;
    }

    /** The items of one page, read in the state that answered it. */
    method PageItems(request: Request, page: seq<Hit>, ghost begun: seq<Step>, ghost after: seq<Step>,
                     ghost hits: seq<Hit>, items: seq<Item>, ghost moments: seq<seq<Step>>)
      returns (more: seq<Item>, ghost times: seq<seq<Step>>)
      requires client.items == ItemsAfter(after) && begun <= after
      requires WereStored(request, begun, after, hits, items, moments)
      requires forall h | h in page :: h in Hits(ItemsAfter(after), request)
      ensures WereStored(request, begun, after, hits + page, more, times)
    {
      hide WereStored, Hits, Run, ItemsAfter, Represents, StoredAt;
      more, times := items, moments;
      assert hits + page[..0] == hits;
      for i := 0 to |page|
        invariant WereStored(request, begun, after, hits + page[..i], more, times)
      {
        StoredNow(after, request, page[i]);
        StoredMore(request, begun, after, hits + page[..i], more, times, page[i], client.items[page[i].key]);
        assert hits + page[..i + 1] == hits + page[..i] + [page[i]];
        more, times := more + [client.items[page[i].key]], times + [after];
      }
      assert page[..|page|] == page;
    }

    /** All pages of a query, wherever the table cuts them and whatever runs in between. It ends whatever is added
        meanwhile, because there are only so many hits. */
    method QueryAll(request: Request, ghost begun: seq<Step>)
      returns (fault: bool, items: seq<Item>, ghost hits: seq<Hit>, ghost moments: seq<seq<Step>>,
               ghost after: seq<Step>)
      requires Represents(client.items, Run(begun).world.table)
      modifies client
      ensures Represents(client.items, Run(after).world.table) && begun <= after
      ensures !fault ==> ReadAcross(request, begun, after, hits, items, moments)
      ensures client.faults == old(client.faults) + (if fault then 1 else 0)
    {
      hide Represents, Run, ItemsAfter, WereStored, Overtaken, IsPage, Remaining, Possible, Before, Hits, StoredAt;
      var cursor: Option<Hit> := None;
      after, hits, items, moments := begun, [], [], [];
      NothingRead(request, begun);
      while true
        invariant Represents(client.items, Run(after).world.table) && begun <= after
        invariant client.faults == old(client.faults)
        invariant Midway(request, begun, after, cursor, hits) && WereStored(request, begun, after, hits, items, moments)
        decreases if cursor.None? then RANKS else Remaining(request, cursor.value)
      {
        ghost var later := Wait(client, after);
        StillMidway(request, begun, after, later, cursor, hits);
        StoredStill(request, begun, after, later, hits, items, moments);
        after := later;
        ItemsNow(client.items, after);
        var failed, page, next := client.Query(request, cursor);
        if failed {
          return true, [], [], [], after;
        }
        PageStored(request, after, cursor, page, next);
        items, moments := PageItems(request, page, begun, after, hits, items, moments);
        if next.None? {
          LastPageExtends(request, begun, after, cursor, hits, page);
          hits := hits + page;
          return false, items, hits, moments, after;
        }
        PageExtends(request, begun, after, cursor, hits, page, next.value);
        if cursor.Some? { RemainingShrinks(request, cursor.value, next.value); }
        hits, cursor := hits + page, next;
      }
    }

    /** The messages of an owned chat in reading order; not found when there is no such chat or no message. */
    method ListMessagesByChatId(user: Uuid, chatId: Uuid, ghost begun: seq<Step>)
      returns (r: Result<seq<Record>, RepositoryError>, ghost keys: seq<Key>, ghost moments: seq<seq<Step>>,
               ghost after: seq<Step>)
      requires Represents(client.items, Run(begun).world.table)
      modifies client
      ensures Represents(client.items, Run(after).world.table) && begun <= after
      ensures r.Ok? ==> RenameAccepted(Run(begun).world.table, chatId, user)
      ensures r.Ok? ==> r.value != [] && MessagesRead(begun, after, chatId, keys, moments, r.value)
      ensures r.Ok? ==> forall i, j | 0 <= i < j < |r.value| :: r.value[i].sentAt <= r.value[j].sentAt
      ensures r == Err(NotFoundError) ==>
                !RenameAccepted(Run(begun).world.table, chatId, user) ||
                  MessageKeys(Run(after).world.table, chatId) == {}
      ensures r.Err? ==> r.error == NotFoundError || r.error == AccessError
      ensures client.faults == old(client.faults) + (if r == Err(AccessError) then 1 else 0)
    {
      hide Encode, Represents, UuidText, EncodeChat, Run, ReadAcross, MessagesRead, RecordAt, DecodeMessage, HitOf;
      hide MessageQuery;
      keys, moments, after := [], [], begun;
      ghost var t := Run(begun).world.table;
      AbsentKey(client.items, t, ChatKey(chatId));
      if ChatKey(chatId) in t {
        RowCondition(client.items, t, chatId, 0, user);
      }
      var fault, item := client.GetItem(Encode(ChatKey(chatId)));
      if fault {
        return Err(AccessError), keys, moments, after;
      }
      if item.None? || !item.value.ChatItem? || item.value.userId != UuidText(user) {
        return Err(NotFoundError), keys, moments, after;
      }
      var failed, items;
      ghost var hits;
      failed, items, hits, moments, after := QueryAll(MessageQuery(chatId), begun);
      if failed {
        return Err(AccessError), keys, moments, after;
      }
      AcrossLengths(MessageQuery(chatId), begun, after, hits, items, moments);
      var records: seq<Record> := [];
      for i := 0 to |items|
        invariant |records| == |keys| == i && client.faults == old(client.faults)
        invariant Represents(client.items, Run(after).world.table)
        invariant hits[..i] == HitsOf(keys) && forall j | 0 <= j < i ::
                    RecordAt(moments[j], chatId, keys[j], records[j])
      {
        StoredHit(MessageQuery(chatId), begun, after, hits, items, moments, i);
        ghost var k := MessageStored(moments[i], chatId, hits[i], items[i]);
        HitsAppend(keys, [k]);
        OneHit(k);
        assert hits[..i + 1] == hits[..i] + [hits[i]];
        records, keys := records + [DecodeMessage(items[i]).value], keys + [k];
      }
      assert hits[..|items|] == hits;
      ReadIsMessages(begun, after, chatId, hits, items, moments, keys, records);
      if items == [] {
        NoneRead(begun, after, chatId, moments);
        return Err(NotFoundError), keys, moments, after;
      }
      OldestFirst(begun, after, chatId, keys, moments, records);
      r := Ok(records);
    }

    /** The user's chats, latest update first; not found when there are none. */
    method ListChatsByUserId(user: Uuid, ghost begun: seq<Step>)
      returns (r: Result<seq<Summary>, RepositoryError>, ghost entries: seq<Recent>, ghost moments: seq<seq<Step>>,
               ghost after: seq<Step>)
      requires Represents(client.items, Run(begun).world.table)
      modifies client
      ensures Represents(client.items, Run(after).world.table) && begun <= after
      ensures r.Ok? ==> r.value != [] && ChatsRead(begun, after, user, entries, moments, r.value)
      ensures r.Ok? ==> forall i, j | 0 <= i < j < |r.value| :: r.value[j].lastUpdatedAt <= r.value[i].lastUpdatedAt
      ensures r == Err(NotFoundError) ==> ChatsOf(Run(after).world.table, user) == {}
      ensures r.Err? ==> r.error == NotFoundError || r.error == AccessError
      ensures client.faults == old(client.faults) + (if r == Err(AccessError) then 1 else 0)
    {
      hide Represents, Run, ReadAcross, ChatsRead, SummaryAt, DecodeSummary, IndexHit, UserPk;
      entries, moments, after := [], [], begun;
      var failed, items;
      ghost var hits;
      failed, items, hits, moments, after := QueryAll(UserQuery(UserPk(user)), begun);
      if failed {
        return Err(AccessError), entries, moments, after;
      }
      AcrossLengths(UserQuery(UserPk(user)), begun, after, hits, items, moments);
      var summaries: seq<Summary> := [];
      for i := 0 to |items|
        invariant |summaries| == |entries| == i && client.faults == old(client.faults)
        invariant Represents(client.items, Run(after).world.table)
        invariant hits[..i] == IndexHits(entries) && forall j | 0 <= j < i ::
                    SummaryAt(moments[j], user, entries[j], summaries[j])
      {
        StoredHit(UserQuery(UserPk(user)), begun, after, hits, items, moments, i);
        ghost var x := EntryStored(moments[i], user, hits[i], items[i]);
        IndexHitsAppend(entries, x);
        assert hits[..i + 1] == hits[..i] + [hits[i]];
        summaries, entries := summaries + [DecodeSummary(items[i]).value], entries + [x];
      }
      assert hits[..|items|] == hits;
      ReadIsChats(begun, after, user, hits, items, moments, entries, summaries);
      if items == [] {
        NoChatsRead(begun, after, user, moments);
        return Err(NotFoundError), entries, moments, after;
      }
      NewestFirst(begun, after, user, entries, moments, summaries);
      r := Ok(summaries);
    }
  }

  lemma AcrossLengths(r: Request, begun: seq<Step>, after: seq<Step>, hits: seq<Hit>, items: seq<Item>,
                      moments: seq<seq<Step>>)
    requires ReadAcross(r, begun, after, hits, items, moments)
    ensures |hits| == |items| == |moments|
  {
    hide StoredAt;
  }

  lemma StoredHit(r: Request, begun: seq<Step>, after: seq<Step>, hits: seq<Hit>, items: seq<Item>,
                  moments: seq<seq<Step>>, i: nat)
    requires ReadAcross(r, begun, after, hits, items, moments) && i < |hits|
    ensures |hits| == |items| == |moments| && begun <= moments[i] <= after && StoredAt(moments[i], r, hits[i], items[i])
  {
    hide StoredAt, Overtaken;
  }

  lemma OneHit(k: Key)
    ensures HitsOf([k]) == [HitOf(k)]
  {
  }

  lemma IndexHitsAppend(entries: seq<Recent>, x: Recent)
    ensures IndexHits(entries + [x]) == IndexHits(entries) + [IndexHit(x)]
  {
  }

  lemma NoneRead(begun: seq<Step>, after: seq<Step>, c: Uuid, moments: seq<seq<Step>>)
    requires MessagesRead(begun, after, c, [], moments, [])
    ensures MessageKeys(Run(after).world.table, c) == {}
  {
    hide MessageKeys, RecordAt, Run;
    forall k ensures k !in MessageKeys(Run(after).world.table, c) {
      assert !KeyOvertaken(begun, after, c, [], k);
    }
  }

  lemma NoChatsRead(begun: seq<Step>, after: seq<Step>, u: Uuid, moments: seq<seq<Step>>)
    requires ChatsRead(begun, after, u, [], moments, [])
    ensures ChatsOf(Run(after).world.table, u) == {}
  {
    hide SummaryAt, Run;
    var t := Run(after).world.table;
    forall x | x in ChatsOf(t, u) ensures EntryAt(after, u, x) {
      EntryOfRow(after, u, x);
    }
    forall x ensures !EntryOvertaken(begun, after, u, [], x) {
    }
  }

  /** The index entries are those of the user's chat rows. */
  lemma EntryOfRow(steps: seq<Step>, u: Uuid, x: Recent)
    ensures x in ChatsOf(Run(steps).world.table, u) <==> EntryAt(steps, u, x)
  {
    RunKeeps(steps);
    RowsUnderTheirKeys(Run(steps).world);
    hide Run;
    var t := Run(steps).world.table;
    if x in ChatsOf(t, u) {
      var k :| k in t && k.ChatKey? && t[k].ChatRow? && t[k].chat.userId == u && x == RecentOf(t[k].chat);
      assert RowHasKey(k, t[k]);
    }
  }

  lemma NothingRead(r: Request, begun: seq<Step>)
    ensures Midway(r, begun, begun, None, []) && WereStored(r, begun, begun, [], [], [])
  {
  }

  lemma PageStored(r: Request, after: seq<Step>, cursor: Option<Hit>, page: seq<Hit>, next: Option<Hit>)
    requires IsPage(ItemsAfter(after), r, cursor, page, next)
    ensures forall h | h in page :: h in Hits(ItemsAfter(after), r)
  {
    hide Hits, Before;
  }
}
