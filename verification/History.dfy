/** The committed history of one chat, and what it determines. Every write to a chat row appends
    one event; the row is the replay of the events. An exchange puts back the row it loaded, so
    its event records how long the history was at that load. */
module History {
  import opened Text
  import opened Uuids
  import opened Domain

  datatype Event =
    | Started(chat: Chat, user: Message, llm: Message)
    | Exchanged(process: nat, loadedAt: nat, user: Message, llm: Message)
    | Renamed(title: string)

  type Log = seq<Event>

  predicate Shaped(log: Log) {
    log != [] && log[0].Started? &&
    forall i | 1 <= i < |log| :: log[i].Renamed? || (log[i].Exchanged? && 1 <= log[i].loadedAt <= i)
  }

  lemma ShapedPrefix(log: Log, n: nat)
    requires Shaped(log) && 1 <= n <= |log|
    ensures Shaped(log[..n])
  {
  }

  /** The chat row after the events of a log. */
  function Replay(log: Log): Chat
    requires Shaped(log)
    decreases |log|
  {
    var n := |log| - 1;
    match log[n]
    case Started(chat, _, _) => chat
    case Renamed(title) => Replay(log[..n]).(title := title)
    case Exchanged(_, k, _, llm) =>
      var base := Replay(log[..k]);
      base.(lastUpdatedAt := llm.sentAt, version := base.version + 1)
  }

  /** What the program checks before an event is committed to a log. For an exchange: the version it
      loaded is the version stored, and the aggregate accepted the turn on what was loaded. */
  predicate Committable(log: Log, e: Event)
    requires Shaped(log)
  {
    match e
    case Started(_, _, _) => false
    case Renamed(_) => true
    case Exchanged(_, k, user, llm) =>
      && 1 <= k <= |log|
      && var base := Replay(log[..k]);
      && base.version == Replay(log).version
      && ContinuableAt(base, user.sentAt)
      && RecordExchange(base, user, llm).Ok?
  }

  predicate GoodStart(e: Event) {
    e.Started? && StartedTurnError(e.chat, e.user, e.llm) == None && e.chat.version == 0
  }

  predicate Good(log: Log) {
    Shaped(log) &&
    var n := |log| - 1;
    if n == 0 then GoodStart(log[0]) else Good(log[..n]) && Committable(log[..n], log[n])
  }

  lemma {:induction false} GoodPrefix(log: Log, n: nat)
    requires Good(log) && 1 <= n <= |log|
    ensures Good(log[..n])
  {
    if n == |log| {
      assert log[..n] == log;
    } else {
      GoodPrefix(log[..|log| - 1], n);
      assert log[..|log| - 1][..n] == log[..n];
    }
  }

  lemma GoodEvent(log: Log, i: nat)
    requires Good(log) && 1 <= i < |log|
    ensures Good(log[..i]) && Committable(log[..i], log[i])
  {
    GoodPrefix(log, i + 1);
    assert log[..i + 1][..i] == log[..i];
  }

  lemma GoodRename(log: Log, title: string)
    requires Good(log)
    ensures Good(log + [Renamed(title)])
    ensures Replay(log + [Renamed(title)]) == Replay(log).(title := title)
  {
    assert (log + [Renamed(title)])[..|log|] == log;
  }

  lemma GoodCommit(log: Log, e: Event)
    requires Good(log) && e.Exchanged? && Committable(log, e)
    ensures Good(log + [e])
    ensures Replay(log + [e]) == RecordExchange(Replay(log[..e.loadedAt]), e.user, e.llm).value
  {
    var next := log + [e];
    assert next[..|log|] == log && next[..e.loadedAt] == log[..e.loadedAt];
  }

  // ----- turns

  datatype Turn = Turn(user: Message, llm: Message)

  function TurnsOf(e: Event): seq<Turn> {
    if e.Renamed? then [] else [Turn(e.user, e.llm)]
  }

  /** The committed turns in commit order. */
  function Turns(log: Log): seq<Turn> {
    if log == [] then [] else Turns(log[..|log| - 1]) + TurnsOf(log[|log| - 1])
  }

  lemma TurnsAppend(log: Log, e: Event)
    ensures Turns(log + [e]) == Turns(log) + TurnsOf(e)
  {
    assert (log + [e])[..|log|] == log;
  }

  lemma {:induction false} TurnsGrow(log: Log, k: nat)
    requires k <= |log|
    ensures Turns(log[..k]) <= Turns(log)
  {
    if k < |log| {
      TurnsGrow(log[..|log| - 1], k);
      assert log[..|log| - 1][..k] == log[..k];
    } else {
      assert log[..k] == log;
    }
  }

  /** The stored version counts the committed exchanges: one less than the committed turns. */
  lemma {:induction false} VersionCountsTurns(log: Log)
    requires Good(log)
    ensures |Turns(log)| == Replay(log).version + 1
    decreases |log|
  {
    var n := |log| - 1;
    if n == 0 {
      assert Turns(log[..0]) == [];
    } else {
      GoodPrefix(log, n);
      VersionCountsTurns(log[..n]);
      if log[n].Exchanged? {
        assert log[..n][..log[n].loadedAt] == log[..log[n].loadedAt];
      }
    }
  }

  /** For the lifetime of a chat its version determines its turns, and so its last update. */
  lemma {:induction false} VersionDeterminesTurns(log: Log, k: nat)
    requires Good(log) && 1 <= k <= |log|
    requires Replay(log[..k]).version == Replay(log).version
    ensures Turns(log[..k]) == Turns(log)
    ensures Replay(log[..k]).lastUpdatedAt == Replay(log).lastUpdatedAt
  {
    GoodPrefix(log, k);
    VersionCountsTurns(log);
    VersionCountsTurns(log[..k]);
    TurnsGrow(log, k);
    LastUpdateIsLastAnswer(log);
    LastUpdateIsLastAnswer(log[..k]);
  }

  lemma {:induction false} LastUpdateIsLastAnswer(log: Log)
    requires Good(log)
    ensures Turns(log) != [] && Replay(log).lastUpdatedAt == Turns(log)[|Turns(log)| - 1].llm.sentAt
    decreases |log|
  {
    var n := |log| - 1;
    if n == 0 {
      assert Turns(log[..0]) == [];
    } else {
      GoodPrefix(log, n);
      LastUpdateIsLastAnswer(log[..n]);
    }
  }

  /** The committed turns of a chat form a chain in time. */
  predicate Chain(turns: seq<Turn>) {
    && (forall i | 0 <= i < |turns| :: turns[i].user.sentAt <= turns[i].llm.sentAt)
    && (forall i | 0 < i < |turns| ::
          turns[i - 1].llm.sentAt <= turns[i].user.sentAt <= turns[i - 1].llm.sentAt + CONTINUATION_LIMIT)
  }

  /** Each turn is one question and one answer of the chat with a common request. */
  predicate Paired(turns: seq<Turn>, chatId: Uuid) {
    forall i | 0 <= i < |turns| :: IsTurnPair(chatId, turns[i].user, turns[i].llm)
  }

  lemma {:induction false} GoodLogsChain(log: Log)
    requires Good(log)
    ensures Chain(Turns(log)) && Paired(Turns(log), Replay(log).chatId)
    decreases |log|
  {
    var n := |log| - 1;
    IdentityFromStart(log);
    if n == 0 {
      assert Turns(log[..0]) == [];
    } else {
      GoodPrefix(log, n);
      IdentityFromStart(log[..n]);
      GoodLogsChain(log[..n]);
      if log[n].Exchanged? {
        NextTurnFits(log);
        ChainExtends(Turns(log[..n]), Turn(log[n].user, log[n].llm), Replay(log[..n]).chatId);
      }
    }
  }

  lemma ChainExtends(turns: seq<Turn>, t: Turn, chatId: Uuid)
    requires Chain(turns) && Paired(turns, chatId) && turns != []
    requires turns[|turns| - 1].llm.sentAt <= t.user.sentAt <= turns[|turns| - 1].llm.sentAt + CONTINUATION_LIMIT
    requires t.user.sentAt <= t.llm.sentAt && IsTurnPair(chatId, t.user, t.llm)
    ensures Chain(turns + [t]) && Paired(turns + [t], chatId)
  {
  }

  /** The last exchange of a log starts no earlier than the last answer before it. */
  lemma NextTurnFits(log: Log)
    requires Good(log) && |log| > 1 && log[|log| - 1].Exchanged?
    ensures var n := |log| - 1;
            && Turns(log[..n]) != []
            && Turns(log[..n])[|Turns(log[..n])| - 1].llm.sentAt <= log[n].user.sentAt
            && log[n].user.sentAt <= Turns(log[..n])[|Turns(log[..n])| - 1].llm.sentAt + CONTINUATION_LIMIT
            && log[n].user.sentAt <= log[n].llm.sentAt
            && IsTurnPair(Replay(log[..n]).chatId, log[n].user, log[n].llm)
  {
    var n := |log| - 1;
    var k := log[n].loadedAt;
    assert log[..n][..k] == log[..k];
    VersionDeterminesTurns(log[..n], k);
    LastUpdateIsLastAnswer(log[..n]);
    IdentityFromStart(log[..n]);
    IdentityFromStart(log[..k]);
  }

  /** Owner, session, creation time and id never change. */
  lemma {:induction false} IdentityKept(log: Log, k: nat)
    requires Good(log) && 1 <= k <= |log|
    ensures SameIdentity(Replay(log), Replay(log[..k]))
    decreases |log|
  {
    IdentityFromStart(log);
    GoodPrefix(log, k);
    IdentityFromStart(log[..k]);
  }

  predicate SameIdentity(a: Chat, b: Chat) {
    a.chatId == b.chatId && a.sessionId == b.sessionId && a.userId == b.userId && a.createdAt == b.createdAt
  }

  lemma {:induction false} IdentityFromStart(log: Log)
    requires Shaped(log)
    ensures SameIdentity(Replay(log), log[0].chat)
    decreases |log|
  {
    var n := |log| - 1;
    if log[n].Renamed? {
      IdentityFromStart(log[..n]);
    } else if log[n].Exchanged? {
      IdentityFromStart(log[..log[n].loadedAt]);
    }
  }

  // ----- at most one exchange per version

  /** Every exchange raises the version for good. */
  lemma ExchangeRaisesVersion(log: Log, k: nat)
    requires Good(log) && 1 <= k < |log| && log[k].Exchanged?
    ensures Shaped(log[..k]) && Replay(log[..k]).version < Replay(log).version
  {
    GoodPrefix(log, k);
    VersionCountsTurns(log[..k]);
    VersionCountsTurns(log);
    ExchangeAddsTurn(log, k);
  }

  lemma ExchangeAddsTurn(log: Log, k: nat)
    requires k < |log| && log[k].Exchanged?
    ensures |Turns(log[..k])| < |Turns(log)|
  {
    assert log[..k + 1] == log[..k] + [log[k]];
    TurnsAppend(log[..k], log[k]);
    TurnsGrow(log, k + 1);
  }

  /** Versions never decrease. */
  lemma VersionsGrow(log: Log, k: nat)
    requires Good(log) && 1 <= k <= |log|
    ensures Shaped(log[..k]) && Replay(log[..k]).version <= Replay(log).version
  {
    GoodPrefix(log, k);
    VersionCountsTurns(log[..k]);
    VersionCountsTurns(log);
    TurnsGrow(log, k);
  }

  /** Two different committed exchanges never loaded the same version. */
  lemma LoadedVersionsDiffer(log: Log, i: nat, j: nat)
    requires Good(log) && 1 <= i < j < |log| && log[i].Exchanged? && log[j].Exchanged?
    ensures Replay(log[..log[i].loadedAt]).version < Replay(log[..log[j].loadedAt]).version
  {
    GoodEvent(log, i);
    GoodEvent(log, j);
    var k, l := log[i].loadedAt, log[j].loadedAt;
    assert log[..i][..k] == log[..k] && log[..j][..l] == log[..l];
    ExchangeRaisesVersion(log[..j], i);
    assert log[..j][..i] == log[..i];
  }

  // ----- titles

  /** The event that supplied the title now stored. */
  function TitleSource(log: Log): (s: nat)
    requires Shaped(log)
    ensures s < |log| && !log[s].Exchanged?
    decreases |log|
  {
    var n := |log| - 1;
    if log[n].Exchanged? then TitleSource(log[..log[n].loadedAt]) else n
  }

  function TitleAt(e: Event): string
    requires !e.Exchanged?
  {
    if e.Started? then e.chat.title else e.title
  }

  lemma {:induction false} TitleComesFromSource(log: Log)
    requires Shaped(log)
    ensures Replay(log).title == TitleAt(log[TitleSource(log)])
    decreases |log|
  {
    var n := |log| - 1;
    if log[n].Exchanged? {
      TitleComesFromSource(log[..log[n].loadedAt]);
    }
  }

  /** The last rename of a log, or its start when there is none. */
  function LastRename(log: Log): (r: nat)
    requires Shaped(log)
    ensures r < |log| && !log[r].Exchanged?
    ensures forall i | r < i < |log| :: log[i].Exchanged?
    decreases |log|
  {
    var n := |log| - 1;
    if log[n].Exchanged? then LastRename(log[..n]) else n
  }

  /** No exchange committed after the rename at r had loaded the chat before it. */
  predicate NoneLoadedBefore(log: Log, r: nat)
    requires Shaped(log) && r < |log|
  {
    forall i | r < i < |log| && log[i].Exchanged? :: log[i].loadedAt > r
  }

  /** The latest rename is the stored title's source exactly when no exchange that was already
      loaded when the rename committed has been committed since. */
  lemma {:induction false} TitleLaw(log: Log)
    requires Good(log)
    ensures TitleSource(log) == LastRename(log) <==> NoneLoadedBefore(log, LastRename(log))
    decreases |log|
  {
    var n, r := |log| - 1, LastRename(log);
    if log[n].Exchanged? {
      var k := log[n].loadedAt;
      if k > r {
        LoadedAfterRename(log, k, r);
        TitleLaw(log[..n]);
        NoneLoadedStep(log, r);
      }
    }
  }

  lemma NoneLoadedStep(log: Log, r: nat)
    requires Shaped(log) && r < |log| - 1 && log[|log| - 1].Exchanged? && log[|log| - 1].loadedAt > r
    ensures NoneLoadedBefore(log, r) <==> NoneLoadedBefore(log[..|log| - 1], r)
  {
  }

  /** The version check admits no exchange between the load and the commit of another. */
  lemma NoExchangeWhileCommitting(log: Log, k: nat)
    requires Good(log) && |log| > 1 && log[|log| - 1].Exchanged?
    requires log[|log| - 1].loadedAt <= k < |log| - 1
    ensures log[k].Renamed?
  {
    var n := |log| - 1;
    var l, before := log[n].loadedAt, log[..n];
    assert before[..l] == log[..l];
    assert before[..k][..l] == before[..l];
    GoodPrefix(before, k);
    VersionsGrow(before[..k], l);
    if before[k].Exchanged? {
      ExchangeRaisesVersion(before, k);
    }
  }

  /** An exchange that loaded after the last rename r committed with nothing in between. */
  lemma LoadedAfterRename(log: Log, k: nat, r: nat)
    requires Good(log) && |log| > 1
    requires log[|log| - 1].Exchanged? && log[|log| - 1].loadedAt == k && r == LastRename(log) < k
    ensures k == |log| - 1
  {
    if k < |log| - 1 {
      NoExchangeWhileCommitting(log, k);
    }
  }
}
