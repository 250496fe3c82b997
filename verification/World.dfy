/** The shared state: the table, and history variables that no request ever reads (except that a
    new chat id is one never issued before). What each committed write keeps and how it moves on. */
module World {
  import opened Uuids
  import opened Domain
  import opened Store
  import opened History

  datatype World = World(
    table: Table,
    logs: map<Uuid, Log>,     // committed events of every chat ever started
    issued: set<Uuid>,        // chat ids handed out so far
    deleting: set<Uuid>)      // chats whose owner's delete has begun

  function Messages(turns: seq<Turn>): seq<Message> {
    if turns == [] then []
    else Messages(turns[..|turns| - 1]) + [turns[|turns| - 1].user, turns[|turns| - 1].llm]
  }

  function MessagesOf(log: Log): seq<Message> {
    Messages(Turns(log))
  }

  predicate DistinctKeys(ms: seq<Message>) {
    forall i, j | 0 <= i < j < |ms| :: KeyOf(ms[i]) != KeyOf(ms[j])
  }

  predicate AllStored(t: Table, ms: seq<Message>) {
    forall i | 0 <= i < |ms| :: KeyOf(ms[i]) in t && t[KeyOf(ms[i])] == MessageRow(ms[i])
  }

  predicate RowMatches(log: Log, k: Key, row: Row)
    requires Good(log)
  {
    match k
    case ChatKey(_) => row == ChatRow(Replay(log))
    case MessageKey(_, _, _, _) =>
      row.MessageRow? && KeyOf(row.message) == k && row.message in MessagesOf(log) && StorableMessage(row.message)
  }

  predicate GoodLogOf(w: World, c: Uuid)
    requires c in w.logs
  {
    Good(w.logs[c]) && Replay(w.logs[c]).chatId == c && c in w.issued
  }

  /** Until its owner's delete begins, a chat is stored in full. */
  predicate Intact(w: World, c: Uuid)
    requires c in w.logs
  {
    ChatKey(c) in w.table && AllStored(w.table, MessagesOf(w.logs[c])) && DistinctKeys(MessagesOf(w.logs[c]))
  }

  predicate Accounted(w: World, k: Key)
    requires k in w.table
  {
    k.chatId in w.logs && Good(w.logs[k.chatId]) && RowMatches(w.logs[k.chatId], k, w.table[k])
  }

  ghost predicate Consistent(w: World) {
    && (forall c | c in w.logs :: GoodLogOf(w, c))
    && (forall k | k in w.table :: Accounted(w, k))
    && (forall c | c in w.logs && c !in w.deleting :: Intact(w, c))
    && w.deleting <= w.logs.Keys
  }

  predicate Gone(w: World, c: Uuid) {
    c in w.logs && ChatKey(c) !in w.table
  }

  /** The key belongs to a turn that was committed at or after position n of the log. */
  predicate Added(log: Log, n: nat, k: Key) {
    exists i | n <= i < |log| :: log[i].Exchanged? && (k == KeyOf(log[i].user) || k == KeyOf(log[i].llm))
  }

  lemma AddedLater(log: Log, m: nat, longer: Log, n: nat, k: Key)
    requires Added(log, m, k) && log <= longer && n <= m
    ensures Added(longer, n, k)
  {
    var i :| m <= i < |log| && log[i].Exchanged? && (k == KeyOf(log[i].user) || k == KeyOf(log[i].llm));
    assert longer[i] == log[i];
  }

  /** A row that appears in the partition of a known chat is a message of a newly committed turn. */
  ghost predicate OnlyTurnsAdd(w: World, v: World) {
    forall k | k in v.table && k !in w.table && k.chatId in w.logs ::
      k.chatId in v.logs && Added(v.logs[k.chatId], |w.logs[k.chatId]|, k)
  }

  /** How a consistent world may move on: histories only grow, and what is gone stays gone. */
  ghost predicate Advances(w: World, v: World) {
    && (forall c | c in w.logs :: c in v.logs && w.logs[c] <= v.logs[c])
    && w.issued <= v.issued && w.deleting <= v.deleting
    && (forall c | Gone(w, c) :: Gone(v, c))
    && (forall k | k in v.table && Gone(w, k.chatId) :: k in w.table && v.table[k] == w.table[k])
    && (forall k | k in w.table && k.MessageKey? && k.chatId !in v.deleting :: k in v.table && v.table[k] == w.table[k])
    && OnlyTurnsAdd(w, v)
  }

  lemma AdvancesTransitively(u: World, v: World, w: World)
    requires Advances(u, v) && Advances(v, w)
    ensures Advances(u, w)
  {
    forall k | k in w.table && k !in u.table && k.chatId in u.logs
      ensures k.chatId in w.logs && Added(w.logs[k.chatId], |u.logs[k.chatId]|, k)
    {
      var c := k.chatId;
      assert u.logs[c] <= v.logs[c] <= w.logs[c];
      if k in v.table {
        AddedLater(v.logs[c], |u.logs[c]|, w.logs[c], |u.logs[c]|, k);
      } else {
        AddedLater(w.logs[c], |v.logs[c]|, w.logs[c], |u.logs[c]|, k);
      }
    }
  }

  // ----- the writes

  datatype Write =
    | Nothing
    | Issue(chatId: Uuid)
    | PutStart(chat: Chat, user: Message, llm: Message)
    | PutExchange(process: nat, loadedAt: nat, chat: Chat, user: Message, llm: Message)
    | SetTitle(chatId: Uuid, title: string)
    | BeginDelete(chatId: Uuid)
    | Remove(key: Key)

  /** The facts about a write that make it legal; the protocol proves them of every write it performs. */
  predicate Legal(w: World, write: Write) {
    match write
    case Nothing => true
    case Issue(_) => true
    case PutStart(chat, user, llm) =>
      && chat.chatId in w.issued && chat.chatId !in w.logs
      && GoodStart(Started(chat, user, llm))
      && StorableMessage(user) && StorableMessage(llm)
      && StartAccepted(w.table, chat, user, llm)
    case PutExchange(p, k, chat, user, llm) =>
      && chat.chatId in w.logs && 1 <= k <= |w.logs[chat.chatId]| && GoodLogOf(w, chat.chatId)
      && (ShapedPrefix(w.logs[chat.chatId], k);
          var base := Replay(w.logs[chat.chatId][..k]);
          ContinuableAt(base, user.sentAt) && RecordExchange(base, user, llm) == Ok(chat))
      && StorableMessage(user) && StorableMessage(llm)
      && ExchangeAccepted(w.table, chat, user, llm)
    case SetTitle(c, title) => ChatKey(c) in w.table && w.table[ChatKey(c)].ChatRow?
    case BeginDelete(c) => c in w.logs
    case Remove(k) => k.chatId in w.deleting
  }

  function Append(w: World, c: Uuid, e: Event): map<Uuid, Log> {
    w.logs[c := (if c in w.logs then w.logs[c] else []) + [e]]
  }

  function Perform(w: World, write: Write): World {
    match write
    case Nothing => w
    case Issue(c) => w.(issued := w.issued + {c})
    case PutStart(chat, user, llm) =>
      w.(table := PutTurn(w.table, chat, user, llm), logs := Append(w, chat.chatId, Started(chat, user, llm)))
    case PutExchange(p, k, chat, user, llm) =>
      w.(table := PutTurn(w.table, chat, user, llm), logs := Append(w, chat.chatId, Exchanged(p, k, user, llm)))
    case SetTitle(c, title) =>
      if ChatKey(c) in w.table && w.table[ChatKey(c)].ChatRow? then
        w.(table := PutTitle(w.table, c, title), logs := Append(w, c, Renamed(title)))
      else w
    case BeginDelete(c) => w.(deleting := w.deleting + {c})
    case Remove(k) => w.(table := w.table - {k})
  }

  // ----- every legal write keeps the world consistent

  lemma MessagesAppend(log: Log, e: Event)
    ensures MessagesOf(log + [e]) == MessagesOf(log) + (if e.Renamed? then [] else [e.user, e.llm])
  {
    TurnsAppend(log, e);
    if e.Renamed? {
      assert Turns(log + [e]) == Turns(log);
    } else {
      assert Turns(log + [e])[..|Turns(log)|] == Turns(log);
    }
  }

  lemma {:induction false} MessagesGrow(turns: seq<Turn>, n: nat)
    requires n <= |turns|
    ensures Messages(turns[..n]) <= Messages(turns)
  {
    if n < |turns| {
      MessagesGrow(turns[..|turns| - 1], n);
      assert turns[..|turns| - 1][..n] == turns[..n];
    } else {
      assert turns[..n] == turns;
    }
  }

  lemma LogMessagesGrow(earlier: Log, later: Log)
    requires earlier <= later
    ensures MessagesOf(earlier) <= MessagesOf(later)
  {
    assert later[..|earlier|] == earlier;
    TurnsGrow(later, |earlier|);
    assert Turns(later)[..|Turns(earlier)|] == Turns(earlier);
    MessagesGrow(Turns(later), |Turns(earlier)|);
  }

  lemma {:induction false} MessagesBelong(log: Log, m: Message)
    requires Good(log) && m in MessagesOf(log)
    ensures m.chatId == Replay(log).chatId
  {
    GoodLogsChain(log);
    MessagesPaired(Turns(log), Replay(log).chatId, m);
  }

  lemma {:induction false} MessagesPaired(turns: seq<Turn>, c: Uuid, m: Message)
    requires Paired(turns, c) && m in Messages(turns)
    ensures m.chatId == c
  {
    var n := |turns| - 1;
    if m != turns[n].user && m != turns[n].llm {
      MessagesPaired(turns[..n], c, m);
    }
  }

  /** A chat in whose partition nothing was written or removed is stored as before. */
  lemma OthersIntact(w: World, v: World, d: Uuid)
    requires Consistent(w) && d in w.logs && d !in w.deleting
    requires d in v.logs && v.logs[d] == w.logs[d]
    requires forall k | k in w.table && k.chatId == d :: k in v.table && v.table[k] == w.table[k]
    ensures Intact(v, d)
  {
    assert Intact(w, d);
    var ms := MessagesOf(w.logs[d]);
    forall i | 0 <= i < |ms| ensures KeyOf(ms[i]) in v.table && v.table[KeyOf(ms[i])] == MessageRow(ms[i]) {
      assert GoodLogOf(w, d);
      MessagesBelong(w.logs[d], ms[i]);
    }
  }

  function Past(w: World, c: Uuid): Log {
    if c in w.logs then w.logs[c] else []
  }

  /** What starting a chat and committing an exchange have in common: one event with a new turn,
      the chat row it leads to, and two messages under unused keys. */
  ghost predicate TurnWrite(w: World, v: World, e: Event, chat: Chat) {
    var c := chat.chatId;
    && !e.Renamed? && (e.Exchanged? <==> c in w.logs)
    && v == w.(table := PutTurn(w.table, chat, e.user, e.llm), logs := Append(w, c, e))
    && Good(Past(w, c) + [e]) && Replay(Past(w, c) + [e]) == chat && c in w.issued
    && IsTurnPair(c, e.user, e.llm) && StorableMessage(e.user) && StorableMessage(e.llm)
    && KeyOf(e.user) !in w.table && KeyOf(e.llm) !in w.table && KeyOf(e.user) != KeyOf(e.llm)
    && (c in w.logs <==> ChatKey(c) in w.table)
  }

  /** The history after the write, and what it determines. */
  lemma TurnLog(w: World, v: World, e: Event, chat: Chat)
    requires TurnWrite(w, v, e, chat)
    ensures var c := chat.chatId;
            && c in v.logs && v.logs[c] == Past(w, c) + [e] && Good(v.logs[c]) && Replay(v.logs[c]) == chat
            && MessagesOf(v.logs[c]) == MessagesOf(Past(w, c)) + [e.user, e.llm]
            && forall d | d in w.logs && d != c :: d in v.logs && v.logs[d] == w.logs[d]
  {
    hide Good, Replay, MessagesOf, IsTurnPair, StorableMessage;
    MessagesAppend(Past(w, chat.chatId), e);
  }

  lemma NewRow(w: World, v: World, e: Event, chat: Chat, k: Key)
    requires TurnWrite(w, v, e, chat) && k in v.table
    requires k == ChatKey(chat.chatId) || k == KeyOf(e.user) || k == KeyOf(e.llm)
    ensures Accounted(v, k)
  {
    TurnLog(w, v, e, chat);
    hide Good, Replay, MessagesOf, StorableMessage;
    assert [e.user, e.llm][0] == e.user && [e.user, e.llm][1] == e.llm;
    assert k.chatId == chat.chatId;
  }

  lemma OldRow(w: World, v: World, e: Event, chat: Chat, k: Key)
    requires TurnWrite(w, v, e, chat) && k in w.table && k in v.table && Accounted(w, k)
    requires k != ChatKey(chat.chatId) && k != KeyOf(e.user) && k != KeyOf(e.llm)
    ensures Accounted(v, k)
  {
    TurnLog(w, v, e, chat);
    hide Good, Replay, MessagesOf, StorableMessage, IsTurnPair;
    assert v.table[k] == w.table[k];
  }

  lemma TurnRows(w: World, v: World, e: Event, chat: Chat, k: Key)
    requires Consistent(w) && TurnWrite(w, v, e, chat) && k in v.table
    ensures Accounted(v, k)
  {
    hide Accounted;
    if k == ChatKey(chat.chatId) || k == KeyOf(e.user) || k == KeyOf(e.llm) {
      NewRow(w, v, e, chat, k);
    } else {
      OnlyTurnKeys(w, v, e, chat, k);
      OldRow(w, v, e, chat, k);
    }
  }

  lemma OnlyTurnKeys(w: World, v: World, e: Event, chat: Chat, k: Key)
    requires TurnWrite(w, v, e, chat) && k in v.table
    requires k != ChatKey(chat.chatId) && k != KeyOf(e.user) && k != KeyOf(e.llm)
    ensures k in w.table
  {
    hide Good, Replay, IsTurnPair, StorableMessage;
  }

  lemma TurnStored(t: Table, ms: seq<Message>, chat: Chat, user: Message, llm: Message)
    requires AllStored(t, ms) && DistinctKeys(ms)
    requires KeyOf(user) !in t && KeyOf(llm) !in t && KeyOf(user) != KeyOf(llm)
    ensures AllStored(PutTurn(t, chat, user, llm), ms + [user, llm]) && DistinctKeys(ms + [user, llm])
  {
  }

  lemma TurnIntact(w: World, v: World, e: Event, chat: Chat)
    requires Consistent(w) && TurnWrite(w, v, e, chat) && chat.chatId !in w.deleting
    ensures Intact(v, chat.chatId)
  {
    var c := chat.chatId;
    var past := Past(w, c);
    MessagesAppend(past, e);
    assert AllStored(w.table, MessagesOf(past)) && DistinctKeys(MessagesOf(past)) by {
      if c in w.logs { assert Intact(w, c); } else { assert Turns([]) == []; }
    }
    TurnStored(w.table, MessagesOf(past), chat, e.user, e.llm);
    assert v.logs[c] == past + [e];
  }

  lemma TurnAdvances(w: World, v: World, e: Event, chat: Chat)
    requires !e.Renamed?
    requires v == w.(table := PutTurn(w.table, chat, e.user, e.llm), logs := Append(w, chat.chatId, e))
    requires e.user.chatId == e.llm.chatId == chat.chatId
    requires KeyOf(e.user) !in w.table && KeyOf(e.llm) !in w.table
    requires e.Exchanged? <==> chat.chatId in w.logs
    requires chat.chatId in w.logs <==> ChatKey(chat.chatId) in w.table
    ensures Advances(w, v)
  {
    var c := chat.chatId;
    assert !Gone(w, c);
    forall d | d in w.logs ensures d in v.logs && w.logs[d] <= v.logs[d] {
    }
    forall k | k in v.table && k.chatId != c ensures k in w.table && v.table[k] == w.table[k] {
    }
    forall k | k in w.table && k.MessageKey? ensures k in v.table && v.table[k] == w.table[k] {
    }
    if c in w.logs {
      var n := |w.logs[c]|;
      assert v.logs[c][n] == e;
    }
  }

  lemma TurnKeeps(w: World, v: World, e: Event, chat: Chat)
    requires Consistent(w) && TurnWrite(w, v, e, chat)
    ensures Consistent(v) && Advances(w, v)
  {
    TurnAdvances(w, v, e, chat);
    forall d | d in v.logs ensures GoodLogOf(v, d) {
      TurnLogs(w, v, e, chat, d);
    }
    forall k | k in v.table ensures Accounted(v, k) {
      TurnRows(w, v, e, chat, k);
    }
    forall d | d in v.logs && d !in v.deleting ensures Intact(v, d) {
      TurnLeavesIntact(w, v, e, chat, d);
    }
  }

  lemma TurnLogs(w: World, v: World, e: Event, chat: Chat, d: Uuid)
    requires Consistent(w) && TurnWrite(w, v, e, chat) && d in v.logs
    ensures GoodLogOf(v, d)
  {
    if d != chat.chatId {
      assert GoodLogOf(w, d);
    } else {
      assert v.logs[d] == Past(w, d) + [e];
    }
  }

  lemma OtherChatKept(w: World, v: World, e: Event, chat: Chat, d: Uuid)
    requires TurnWrite(w, v, e, chat) && d in v.logs && d != chat.chatId
    ensures d in w.logs && v.logs[d] == w.logs[d] && v.deleting == w.deleting
    ensures forall k | k in w.table && k.chatId == d :: k in v.table && v.table[k] == w.table[k]
  {
    hide Good, Replay, StorableMessage;
  }

  lemma TurnLeavesIntact(w: World, v: World, e: Event, chat: Chat, d: Uuid)
    requires Consistent(w) && TurnWrite(w, v, e, chat) && d in v.logs && d !in v.deleting
    ensures Intact(v, d)
  {
    hide Intact, Good, Replay;
    if d != chat.chatId {
      OtherChatKept(w, v, e, chat, d);
      OthersIntact(w, v, d);
    } else {
      TurnIntact(w, v, e, chat);
    }
  }

  lemma StartKeeps(w: World, chat: Chat, user: Message, llm: Message)
    requires Consistent(w) && Legal(w, PutStart(chat, user, llm))
    ensures var v := Perform(w, PutStart(chat, user, llm)); Consistent(v) && Advances(w, v)
  {
    var e := Started(chat, user, llm);
    assert Past(w, chat.chatId) + [e] == [e];
    TurnKeeps(w, Perform(w, PutStart(chat, user, llm)), e, chat);
  }

  lemma ExchangeKeeps(w: World, p: nat, k: nat, chat: Chat, user: Message, llm: Message)
    requires Consistent(w) && Legal(w, PutExchange(p, k, chat, user, llm))
    ensures var v := Perform(w, PutExchange(p, k, chat, user, llm)); Consistent(v) && Advances(w, v)
  {
    var e := Exchanged(p, k, user, llm);
    var log := w.logs[chat.chatId];
    assert Accounted(w, ChatKey(chat.chatId));
    GoodCommit(log, e);
    IdentityKept(log, k);
    TurnKeeps(w, Perform(w, PutExchange(p, k, chat, user, llm)), e, chat);
  }

  lemma RenameRow(w: World, c: Uuid, title: string, k: Key)
    requires Consistent(w) && Legal(w, SetTitle(c, title)) && k in w.table
    ensures var v := Perform(w, SetTitle(c, title)); k in v.table && Accounted(v, k)
  {
    assert Accounted(w, ChatKey(c)) && Accounted(w, k);
    GoodRename(w.logs[c], title);
    MessagesAppend(w.logs[c], Renamed(title));
    assert Perform(w, SetTitle(c, title)).logs[c] == w.logs[c] + [Renamed(title)];
  }

  lemma RenameLog(w: World, c: Uuid, title: string)
    requires Consistent(w) && Legal(w, SetTitle(c, title))
    ensures var v := Perform(w, SetTitle(c, title));
            c in w.logs && v.logs == w.logs[c := w.logs[c] + [Renamed(title)]] && GoodLogOf(v, c)
    ensures var v := Perform(w, SetTitle(c, title)); c !in w.deleting ==> Intact(v, c)
  {
    assert Accounted(w, ChatKey(c)) && GoodLogOf(w, c);
    GoodRename(w.logs[c], title);
    MessagesAppend(w.logs[c], Renamed(title));
    if c !in w.deleting { assert Intact(w, c); }
    hide Good, Replay, MessagesOf, Consistent, DistinctKeys;
    RenamedStored(w.table, c, title, MessagesOf(w.logs[c]));
    assert MessagesOf(w.logs[c]) + [] == MessagesOf(w.logs[c]);
  }

  lemma RenamedStored(t: Table, c: Uuid, title: string, ms: seq<Message>)
    requires ChatKey(c) in t && t[ChatKey(c)].ChatRow?
    ensures AllStored(t, ms) ==> AllStored(PutTitle(t, c, title), ms)
  {
  }

  lemma RenameLeavesIntact(w: World, c: Uuid, title: string, d: Uuid)
    requires Consistent(w) && Legal(w, SetTitle(c, title)) && d in w.logs
    ensures var v := Perform(w, SetTitle(c, title));
            d in v.logs && GoodLogOf(v, d) && (d !in v.deleting ==> Intact(v, d))
  {
    RenameLog(w, c, title);
    if d != c {
      assert GoodLogOf(w, d);
      if d !in w.deleting { OthersIntact(w, Perform(w, SetTitle(c, title)), d); }
    }
  }

  lemma RenameAdvances(w: World, c: Uuid, title: string)
    requires Legal(w, SetTitle(c, title)) && c in w.logs
    ensures Advances(w, Perform(w, SetTitle(c, title)))
  {
  }

  lemma RenameKeeps(w: World, c: Uuid, title: string)
    requires Consistent(w) && Legal(w, SetTitle(c, title))
    ensures var v := Perform(w, SetTitle(c, title)); Consistent(v) && Advances(w, v)
  {
    var v := Perform(w, SetTitle(c, title));
    RenameLog(w, c, title);
    RenameAdvances(w, c, title);
    assert v.logs.Keys == w.logs.Keys;
    forall d | d in v.logs ensures GoodLogOf(v, d) && (d !in v.deleting ==> Intact(v, d)) {
      RenameLeavesIntact(w, c, title, d);
    }
    forall k | k in v.table ensures Accounted(v, k) {
      RenameRow(w, c, title, k);
    }
  }

  lemma RemoveAdvances(w: World, k: Key)
    requires Legal(w, Remove(k))
    ensures Advances(w, Perform(w, Remove(k)))
  {
  }

  lemma RemoveKeeps(w: World, k: Key)
    requires Consistent(w) && Legal(w, Remove(k))
    ensures var v := Perform(w, Remove(k)); Consistent(v) && Advances(w, v)
  {
    var v := Perform(w, Remove(k));
    RemoveAdvances(w, k);
    ShrunkConsistent(w, v);
  }

  /** Taking rows away only from chats that are being deleted, or issuing ids, leaves a world consistent. */
  lemma ShrunkConsistent(w: World, v: World)
    requires Consistent(w) && v.logs == w.logs && w.issued <= v.issued && w.deleting <= v.deleting <= w.logs.Keys
    requires forall j | j in v.table :: j in w.table && v.table[j] == w.table[j]
    requires forall j | j in w.table && j.chatId !in v.deleting :: j in v.table
    ensures Consistent(v)
  {
    forall d | d in v.logs ensures GoodLogOf(v, d) {
      assert GoodLogOf(w, d);
    }
    forall j | j in v.table ensures Accounted(v, j) {
      assert Accounted(w, j);
    }
    forall d | d in v.logs && d !in v.deleting ensures Intact(v, d) {
      OthersIntact(w, v, d);
    }
  }

  lemma BookkeepingKeeps(w: World, v: World)
    requires Consistent(w)
    requires v == w.(issued := v.issued, deleting := v.deleting)
    requires w.issued <= v.issued && w.deleting <= v.deleting <= w.logs.Keys
    ensures Consistent(v) && Advances(w, v)
  {
    ShrunkConsistent(w, v);
  }

  /** Every legal write keeps the world consistent and only moves it forward. */
  lemma LegalWritesKeep(w: World, write: Write)
    requires Consistent(w) && Legal(w, write)
    ensures Consistent(Perform(w, write)) && Advances(w, Perform(w, write))
  {
    match write
    case Nothing =>
    case Issue(c) => BookkeepingKeeps(w, Perform(w, write));
    case PutStart(chat, user, llm) => StartKeeps(w, chat, user, llm);
    case PutExchange(p, k, chat, user, llm) => ExchangeKeeps(w, p, k, chat, user, llm);
    case SetTitle(c, title) => RenameKeeps(w, c, title);
    case BeginDelete(c) => BookkeepingKeeps(w, Perform(w, write));
    case Remove(k) => RemoveKeeps(w, k);
  }
}
