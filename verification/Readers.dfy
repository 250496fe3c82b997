/** What readers of the stored strings see in every state that any schedule of requests can reach. */
module Readers {
  import opened Uuids
  import opened Domain
  import opened Sorting
  import opened Store
  import opened History
  import opened World
  import opened Protocol
  import opened Guarantees
  import opened Encoding
  import opened Database
  import opened Representation
  import opened Reading
  import opened Repository
  import opened Citations

  /** Every reachable table has items that represent it, so what is proved of represented tables is proved of all. */
  lemma EveryStateIsStorable(steps: seq<Step>)
    ensures exists items :: Represents(items, Run(steps).world.table)
  {
    RunKeeps(steps);
    RowsUnderTheirKeys(Run(steps).world);
    TableIsStorable(Run(steps).world.table);
  }

  /** The chat is in the user's list under the time of its last answer. */
  ghost predicate ListedByLastAnswer(items: Items, log: Log, c: Uuid) {
    && Shaped(log) && Turns(log) != []
    && IndexHit(Recent(Turns(log)[|Turns(log)| - 1].llm.sentAt, c))
       in Database.Answer(items, UserQuery(UserPk(log[0].chat.userId)))
  }

  lemma RowIsListed(items: Items, t: Table, c: Uuid)
    requires Represents(items, t) && ChatKey(c) in t && t[ChatKey(c)].ChatRow?
    ensures IndexHit(RecentOf(t[ChatKey(c)].chat))
            in Database.Answer(items, UserQuery(UserPk(t[ChatKey(c)].chat.userId)))
  {
    hide Represents, UserPk, IndexHit, Database.Answer;
    var chat := t[ChatKey(c)].chat;
    IndexAgreement(items, t, chat.userId);
    RecencyIsTotal();
    InOrderIsOrdered(ChatsOf(t, chat.userId), MoreRecent);
    assert RecentOf(chat) in ChatsOf(t, chat.userId);
    var i :| 0 <= i < |LatestFirst(t, chat.userId)| && LatestFirst(t, chat.userId)[i] == RecentOf(chat);
    assert IndexHits(LatestFirst(t, chat.userId))[i] == IndexHit(RecentOf(chat));
  }

  lemma OpenChatIsListed(w: World, items: Items, c: Uuid)
    requires Consistent(w) && c in w.logs && c !in w.deleting && Represents(items, w.table)
    ensures ListedByLastAnswer(items, w.logs[c], c)
  {
    hide Represents, UserPk, IndexHit, Database.Answer;
    assert Intact(w, c) && GoodLogOf(w, c) && Accounted(w, ChatKey(c));
    LastUpdateIsLastAnswer(w.logs[c]);
    IdentityFromStart(w.logs[c]);
    RowIsListed(items, w.table, c);
  }

  /** Every chat that was started and is not being deleted is in its starter's list, under the time of its last
      committed answer. */
  lemma OpenChatsAreListed(steps: seq<Step>, items: Items, c: Uuid)
    requires Represents(items, Run(steps).world.table)
    requires c in Run(steps).world.logs && c !in Run(steps).world.deleting
    ensures ListedByLastAnswer(items, Run(steps).world.logs[c], c)
  {
    RunKeeps(steps);
    OpenChatIsListed(Run(steps).world, items, c);
  }

  /** Question, answer, question, answer, as committed. */
  predicate TellsHistory(records: seq<Record>, ms: seq<Message>) {
    |records| == |ms| && forall i | 0 <= i < |ms| :: Tells(records[i], ms[i])
  }

  // ----- messages read across moments

  predicate Open(w: World, c: Uuid) {
    c in w.logs && c !in w.deleting
  }

  /** What was read of an open chat is stored still. */
  lemma RecordLasts(s: seq<Step>, after: seq<Step>, c: Uuid, k: Key, record: Record)
    requires RecordAt(s, c, k, record) && s <= after && Open(Run(after).world, c)
    ensures RecordAt(after, c, k, record)
  {
    hide Tells;
    MomentAdvances(s, after);
  }

  /** With ordered ties the keys of an open chat in commit order ascend, and do so only then. */
  lemma CommitOrder(w: World, c: Uuid)
    requires Consistent(w) && Open(w, c)
    ensures MessageKeys(w.table, c) == Elements(KeysOf(MessagesOf(w.logs[c])))
    ensures Sorting.Ascending(KeysOf(MessagesOf(w.logs[c])), KeyLess) <==> TiesOrdered(Turns(w.logs[c]))
  {
    assert GoodLogOf(w, c);
    IntactKeys(w, c);
    GoodLogsChain(w.logs[c]);
    MessagesAlternate(Turns(w.logs[c]));
    ChainAscends(Turns(w.logs[c]), MessagesOf(w.logs[c]), c);
  }

  /** In a list that ascends, what joins it later comes later. */
  lemma LaterIsGreater(earlier: seq<Key>, later: seq<Key>, k: Key, g: Key)
    requires earlier <= later && Sorting.Ascending(later, KeyLess) && k in later && k !in earlier && g in earlier
    ensures !KeyLess(k, g)
  {
    KeyOrderIsTotal();
    var i :| 0 <= i < |later| && later[i] == k;
    var j :| 0 <= j < |earlier| && earlier[j] == g;
    assert forall n | 0 <= n < |earlier| :: earlier[n] == later[n] && earlier[n] != k;
    assert later[j] == g && KeyLess(g, k);
    assert KeyLess(k, g) ==> KeyLess(g, g);
  }

  lemma OpenBefore(u: World, w: World, c: Uuid, g: Key)
    requires Consistent(u) && Advances(u, w) && Open(w, c) && g in MessageKeys(u.table, c)
    ensures Open(u, c) && c in w.logs && u.logs[c] <= w.logs[c]
  {
    assert Accounted(u, g);
  }

  lemma KeysGrow(earlier: seq<Message>, later: seq<Message>)
    requires earlier <= later
    ensures KeysOf(earlier) <= KeysOf(later)
  {
  }

  lemma NeverBehind(u: World, w: World, c: Uuid, k: Key, g: Key)
    requires Consistent(u) && Consistent(w) && Advances(u, w) && Open(w, c) && TiesOrdered(Turns(w.logs[c]))
    requires k in MessageKeys(w.table, c) && k !in MessageKeys(u.table, c) && g in MessageKeys(u.table, c)
    ensures !KeyLess(k, g)
  {
    hide KeyLess, TiesOrdered, Turns, MessagesOf, Consistent, Advances, Open, MessageKeys, KeysOf;
    OpenBefore(u, w, c, g);
    LogMessagesGrow(u.logs[c], w.logs[c]);
    CommitOrder(u, c);
    CommitOrder(w, c);
    KeysGrow(MessagesOf(u.logs[c]), MessagesOf(w.logs[c]));
    LaterIsGreater(KeysOf(MessagesOf(u.logs[c])), KeysOf(MessagesOf(w.logs[c])), k, g);
  }

  lemma NotOvertaken(begun: seq<Step>, after: seq<Step>, c: Uuid, keys: seq<Key>, k: Key)
    requires Open(Run(after).world, c) && TiesOrdered(Turns(Run(after).world.logs[c]))
    requires k in MessageKeys(Run(after).world.table, c)
    ensures !KeyOvertaken(begun, after, c, keys, k)
  {
    hide KeyLess, MessageKeys;
    forall s, g | begun <= s <= after && k !in MessageKeys(Run(s).world.table, c) &&
      g in MessageKeys(Run(s).world.table, c)
      ensures !KeyLess(k, g)
    {
      MomentAdvances(s, after);
      NeverBehind(Run(s).world, Run(after).world, c, k, g);
    }
  }

  lemma StoredThroughout(begun: seq<Step>, s: seq<Step>, after: seq<Step>, c: Uuid, k: Key)
    requires begun <= s <= after && Open(Run(after).world, c) && k in MessageKeys(Run(begun).world.table, c)
    ensures k in MessageKeys(Run(s).world.table, c)
  {
    MomentAdvances(begun, s);
    MomentAdvances(s, after);
  }

  /** Every record read of an open chat is one of its committed messages, and all those stored when the read began
      are among them. */
  lemma ReadIsCommitted(begun: seq<Step>, after: seq<Step>, c: Uuid, keys: seq<Key>, moments: seq<seq<Step>>,
                        records: seq<Record>)
    requires MessagesRead(begun, after, c, keys, moments, records) && begun <= after && Open(Run(after).world, c)
    ensures forall i | 0 <= i < |keys| :: RecordAt(after, c, keys[i], records[i])
    ensures forall k | k in MessageKeys(Run(begun).world.table, c) :: k in keys
  {
    hide KeyLess, Tells;
    forall i | 0 <= i < |keys| ensures RecordAt(after, c, keys[i], records[i]) {
      RecordLasts(moments[i], after, c, keys[i], records[i]);
    }
    forall k | k in MessageKeys(Run(begun).world.table, c) ensures k in keys {
      forall s | begun <= s <= after ensures k in MessageKeys(Run(s).world.table, c) {
        StoredThroughout(begun, s, after, c, k);
      }
    }
  }

  /** A record tells the key of its message within a chat. */
  lemma RecordTellsKey(record: Record, m: Message, n: Message)
    requires Tells(record, m) && Tells(record, n) && m.chatId == n.chatId
    ensures KeyOf(m) == KeyOf(n)
  {
    hide NormalCitations;
    assert "user"[0] != "llm"[0];
  }

  lemma HistoryTold(t: Table, ms: seq<Message>, c: Uuid, after: seq<Step>, keys: seq<Key>, records: seq<Record>)
    requires t == Run(after).world.table && AllStored(t, ms) && keys == KeysOf(ms) && |records| == |keys|
    requires forall i | 0 <= i < |keys| :: RecordAt(after, c, keys[i], records[i])
    ensures TellsHistory(records, ms)
  {
    hide Tells, Run;
    forall i | 0 <= i < |ms| ensures Tells(records[i], ms[i]) {
      assert keys[i] == KeyOf(ms[i]);
    }
  }

  lemma KeysTold(w: World, ms: seq<Message>, c: Uuid, after: seq<Step>, keys: seq<Key>, records: seq<Record>)
    requires w == Run(after).world && Consistent(w) && TellsHistory(records, ms) && |keys| == |records|
    requires forall i | 0 <= i < |ms| :: ms[i].chatId == c
    requires forall i | 0 <= i < |keys| :: RecordAt(after, c, keys[i], records[i])
    ensures keys == KeysOf(ms)
  {
    hide Tells, Run;
    forall i | 0 <= i < |keys| ensures keys[i] == KeyOf(ms[i]) {
      assert RecordAt(after, c, keys[i], records[i]);
      assert Accounted(w, keys[i]);
      RecordTellsKey(records[i], w.table[keys[i]].message, ms[i]);
    }
  }

  lemma AllRead(begun: seq<Step>, after: seq<Step>, c: Uuid, keys: seq<Key>, moments: seq<seq<Step>>,
                records: seq<Record>)
    requires MessagesRead(begun, after, c, keys, moments, records) && begun <= after && Open(Run(after).world, c)
    requires TiesOrdered(Turns(Run(after).world.logs[c]))
    ensures keys == KeysOf(MessagesOf(Run(after).world.logs[c]))
  {
    hide KeyLess, Tells;
    var w := Run(after).world;
    ReadIsCommitted(begun, after, c, keys, moments, records);
    RunKeeps(after);
    CommitOrder(w, c);
    KeyOrderIsTotal();
    forall k ensures k in keys <==> k in KeysOf(MessagesOf(w.logs[c])) {
      if k in keys {
        var i :| 0 <= i < |keys| && keys[i] == k;
        assert RecordAt(after, c, keys[i], records[i]);
      }
      if k in MessageKeys(w.table, c) { NotOvertaken(begun, after, c, keys, k); }
      assert k in MessageKeys(w.table, c) <==> k in Elements(KeysOf(MessagesOf(w.logs[c])));
    }
    OrderIsUnique(keys, KeysOf(MessagesOf(w.logs[c])), KeyLess);
  }

  /** The two records of a turn: its question, said by "user", and its answer, said by "llm". */
  predicate TellsTurn(question: Record, answer: Record, turn: Turn) {
    && question == Record(turn.user.requestId, "user", turn.user.content, turn.user.sentAt,
                          NormalCitations(turn.user.citations))
    && answer == Record(turn.llm.requestId, "llm", turn.llm.content, turn.llm.sentAt,
                        NormalCitations(turn.llm.citations))
  }

  /** Question and answer of every turn, turn by turn. */
  predicate TellsTurns(records: seq<Record>, turns: seq<Turn>) {
    |records| == 2 * |turns| &&
    forall i | 0 <= i < |turns| :: TellsTurn(records[2 * i], records[2 * i + 1], turns[i])
  }

  lemma TurnsTold(records: seq<Record>, turns: seq<Turn>, c: Uuid)
    requires Paired(turns, c)
    ensures TellsHistory(records, Messages(turns)) <==> TellsTurns(records, turns)
  {
    var ms := Messages(turns);
    MessagesAlternate(turns);
    forall i | 0 <= i < |turns| && |records| == |ms|
      ensures Tells(records[2 * i], ms[2 * i]) && Tells(records[2 * i + 1], ms[2 * i + 1]) <==>
                TellsTurn(records[2 * i], records[2 * i + 1], turns[i])
    {
      TurnTold(records[2 * i], records[2 * i + 1], turns[i], c);
    }
    hide Tells, TellsTurn, Messages;
    if TellsTurns(records, turns) {
      forall j | 0 <= j < |ms| ensures Tells(records[j], ms[j]) {
        assert TellsTurn(records[2 * (j / 2)], records[2 * (j / 2) + 1], turns[j / 2]);
      }
    }
  }

  lemma TurnTold(question: Record, answer: Record, turn: Turn, c: Uuid)
    requires IsTurnPair(c, turn.user, turn.llm)
    ensures Tells(question, turn.user) && Tells(answer, turn.llm) <==> TellsTurn(question, answer, turn)
  {
  }

  /** However many pages a read takes and whatever is committed between them, what the reader of an open chat is
      given is its whole history at the last page, question and answer of each turn in commit order, exactly when
      ties in time are ordered by request id. */
  lemma ReadersSeeHistory(begun: seq<Step>, after: seq<Step>, c: Uuid, keys: seq<Key>, moments: seq<seq<Step>>,
                          records: seq<Record>)
    requires MessagesRead(begun, after, c, keys, moments, records) && begun <= after && Open(Run(after).world, c)
    ensures TellsTurns(records, Turns(Run(after).world.logs[c])) <==> TiesOrdered(Turns(Run(after).world.logs[c]))
  {
    RunKeeps(after);
    hide Run, TiesOrdered, TellsTurns, MessagesRead, TellsHistory;
    assert GoodLogOf(Run(after).world, c);
    GoodLogsChain(Run(after).world.logs[c]);
    TurnsTold(records, Turns(Run(after).world.logs[c]), c);
    MessagesTold(begun, after, c, keys, moments, records);
  }

  lemma MessagesTold(begun: seq<Step>, after: seq<Step>, c: Uuid, keys: seq<Key>, moments: seq<seq<Step>>,
                     records: seq<Record>)
    requires MessagesRead(begun, after, c, keys, moments, records) && begun <= after && Open(Run(after).world, c)
    ensures TellsHistory(records, MessagesOf(Run(after).world.logs[c])) <==>
              TiesOrdered(Turns(Run(after).world.logs[c]))
  {
    hide KeyLess, Tells;
    var w := Run(after).world;
    var ms := MessagesOf(w.logs[c]);
    ReadIsCommitted(begun, after, c, keys, moments, records);
    RunKeeps(after);
    CommitOrder(w, c);
    assert Intact(w, c) && GoodLogOf(w, c);
    if TiesOrdered(Turns(w.logs[c])) {
      AllRead(begun, after, c, keys, moments, records);
      HistoryTold(w.table, ms, c, after, keys, records);
    }
    if TellsHistory(records, ms) {
      forall i | 0 <= i < |ms| ensures ms[i].chatId == c {
        MessagesBelong(w.logs[c], ms[i]);
      }
      KeysTold(w, ms, c, after, keys, records);
    }
  }

  // ----- chats read across moments

  lemma EntriesEvolve(s: seq<Step>, later: seq<Step>, u: Uuid, x: Recent, y: Recent)
    requires s <= later && EntryAt(s, u, x) && EntryAt(later, u, y)
    ensures x.chatId == y.chatId ==> x.lastUpdatedAt <= y.lastUpdatedAt
  {
    if x.chatId == y.chatId {
      assert later == s + later[|s|..];
      RowsEvolve(s, later[|s|..], x.chatId);
    }
  }

  /** No chat is listed twice, although it may have been updated between the pages. */
  lemma ListedOnce(begun: seq<Step>, after: seq<Step>, u: Uuid, entries: seq<Recent>, moments: seq<seq<Step>>,
                   summaries: seq<Summary>)
    requires ChatsRead(begun, after, u, entries, moments, summaries)
    ensures forall i, j | 0 <= i < j < |entries| :: entries[i].chatId != entries[j].chatId
  {
    forall i, j | 0 <= i < j < |entries| ensures entries[i].chatId != entries[j].chatId {
      SummaryHasEntry(moments[i], u, entries[i], summaries[i]);
      SummaryHasEntry(moments[j], u, entries[j], summaries[j]);
      EntriesEvolve(moments[i], moments[j], u, entries[i], entries[j]);
      assert MoreRecent(entries[i], entries[j]);
    }
  }

  /** Between two moments at which a chat has the same entry it has no other. */
  lemma EntryLasts(begun: seq<Step>, s: seq<Step>, after: seq<Step>, u: Uuid, x: Recent)
    requires begun <= s <= after && EntryAt(begun, u, x) && EntryAt(after, u, x)
    ensures EntryAt(s, u, x)
  {
    hide Consistent, Advances;
    var c := x.chatId;
    MomentAdvances(begun, s);
    MomentAdvances(s, after);
    RowLasts(Run(begun).world, Run(s).world, Run(after).world, c);
    assert s == begun + s[|begun|..] && after == s + after[|s|..];
    RowsEvolve(begun, s[|begun|..], c);
    RowsEvolve(s, after[|s|..], c);
  }

  lemma RowLasts(u: World, v: World, w: World, c: Uuid)
    requires Consistent(u) && Advances(u, v) && Advances(v, w) && ChatKey(c) in u.table && ChatKey(c) in w.table
    ensures ChatKey(c) in v.table
  {
    assert Accounted(u, ChatKey(c));
    assert !Gone(v, c);
  }

  /** A chat whose entry is the same when the read begins and when it ends is listed, with that entry. */
  lemma SettledChatsAreListed(begun: seq<Step>, after: seq<Step>, u: Uuid, entries: seq<Recent>,
                              moments: seq<seq<Step>>,
                              summaries: seq<Summary>, x: Recent)
    requires ChatsRead(begun, after, u, entries, moments, summaries) && begun <= after
    requires EntryAt(begun, u, x) && EntryAt(after, u, x)
    ensures x in entries
  {
    hide EntryAt, MoreRecent, SummaryAt;
    forall s | begun <= s <= after ensures EntryAt(s, u, x) {
      EntryLasts(begun, s, after, u, x);
    }
  }

  /** With nothing running in between, the list is exactly the user's chats, latest first. */
  lemma QuietListIsExact(steps: seq<Step>, u: Uuid, entries: seq<Recent>, moments: seq<seq<Step>>,
                         summaries: seq<Summary>)
    requires ChatsRead(steps, steps, u, entries, moments, summaries)
    ensures entries == LatestFirst(Run(steps).world.table, u)
  {
    hide MoreRecent, SummaryAt, EntryAt;
    RecencyIsTotal();
    forall x ensures x in entries <==> x in ChatsOf(Run(steps).world.table, u) {
      EntryOfRow(steps, u, x);
      if x in entries {
        var i :| 0 <= i < |entries| && entries[i] == x;
        SummaryHasEntry(moments[i], u, x, summaries[i]);
        assert moments[i] == steps;
      }
      forall s, y | steps <= s <= steps && EntryAt(s, u, y) ensures s == steps {
      }
      if EntryAt(steps, u, x) {
        assert !EntryOvertaken(steps, steps, u, entries, x);
      }
    }
    IsInOrder(entries, ChatsOf(Run(steps).world.table, u), MoreRecent);
  }

  lemma SummaryHasEntry(steps: seq<Step>, u: Uuid, x: Recent, summary: Summary)
    requires SummaryAt(steps, u, x, summary)
    ensures EntryAt(steps, u, x)
  {
  }
}
