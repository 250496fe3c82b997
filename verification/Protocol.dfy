/** The chat service as a state machine. Any number of requests interleave on one table; each is a
    process with a phase and a private snapshot, and one step is one effect of one request: a clock
    reading, an answer from the generator, a read, or one atomic write. Clocks, answers, failures
    and page boundaries are inputs of the steps, so every schedule and every clock is covered. */
module Protocol {
  import opened Text
  import opened Time
  import opened Uuids
  import opened Citations
  import opened Domain
  import opened Sorting
  import opened Store
  import opened History
  import opened World

  const BATCH := 25
  const TITLE_MAX := 10

  datatype Failure = ChatNotFound | LoadFailed | SaveFailed | Conflict | Expired | OutOfOrder | BadSession
    | GenerationFailed | TitleFailed | DeleteFailed

  datatype Outcome = StartDone(chatId: Uuid) | ExchangeDone(chatId: Uuid, loadedVersion: nat) | RenameDone
    | DeleteDone(chatId: Uuid, begunAt: nat) | Failed(failure: Failure)

  datatype Process =
    | StartNew(user: Uuid, requestId: Uuid, prompt: string)
    | StartAsked(user: Uuid, requestId: Uuid, prompt: string, askedAt: Instant)
    | StartReady(user: Uuid, chat: Chat, question: Message, answer: Message)
    | ContinueNew(user: Uuid, chatId: Uuid, requestId: Uuid, prompt: string)
    | ContinueLoaded(user: Uuid, requestId: Uuid, prompt: string, base: Chat, loadedAt: nat)
    | ContinueAsked(user: Uuid, requestId: Uuid, prompt: string, base: Chat, loadedAt: nat, askedAt: Instant)
    | ContinueReady(user: Uuid, base: Chat, loadedAt: nat, chat: Chat, question: Message, answer: Message)
    | RenameNew(user: Uuid, chatId: Uuid, title: string)
    | DeleteNew(user: Uuid, chatId: Uuid)
    | DeleteQuerying(user: Uuid, chatId: Uuid, begunAt: nat, cursor: Option<Key>, found: seq<Key>)
    | DeleteRemoving(user: Uuid, chatId: Uuid, begunAt: nat, batch: set<Key>, rest: seq<Key>)
    | Finished(user: Uuid, outcome: Outcome)

  predicate IsNew(q: Process) {
    q.StartNew? || q.ContinueNew? || q.RenameNew? || q.DeleteNew?
  }

  datatype Generated = Answer(sessionId: string, text: string, citations: seq<Citation>) | NoAnswer

  datatype Action =
    | ReadClock(now: Instant)
    | Generate(generated: Generated, now: Instant, freshId: Uuid)
    | Load(fault: bool)
    | Commit(fault: bool)
    | Page(upTo: Option<Key>, fault: bool)
    | RemoveOne(key: Key)
    | NextBatch
    | GiveUp

  datatype Step = Arrive(process: nat, request: Process) | Act(process: nat, action: Action)

  datatype State = State(world: World, processes: map<nat, Process>)

  function TitleFromPrompt(prompt: string): string {
    if |prompt| <= TITLE_MAX then prompt else prompt[..TITLE_MAX] + "..."
  }

  /** What a process becomes, and the write it performs at that moment. */
  datatype Effect = Effect(next: Process, write: Write)

  function Fail(q: Process, failure: Failure): Effect {
    Effect(Finished(q.user, Failed(failure)), Nothing)
  }

  /** Both messages of the turn can be written to the table; otherwise the save fails before it is sent. */
  predicate CanBeSaved(q: Process)
    requires q.StartReady? || q.ContinueReady?
  {
    StorableMessage(q.question) && StorableMessage(q.answer)
  }

  // ----- start

  function StartGenerated(q: Process, g: Generated, now: Instant, id: Uuid): Effect
    requires q.StartAsked?
  {
    if g.NoAnswer? then Fail(q, GenerationFailed)
    else
      var created := CreateChat(id, g.sessionId, TitleFromPrompt(q.prompt), q.user, now);
      if created.Err? then Fail(q, BadSession)
      else
        var question := UserMessage(id, q.requestId, q.prompt, q.askedAt);
        var answer := Message(id, q.requestId, Llm, g.text, now, g.citations);
        if StartedTurnError(created.value, question, answer).Some? then Fail(q, OutOfOrder)
        else Effect(StartReady(q.user, created.value, question, answer), Issue(id))
  }

  function StartCommitted(w: World, q: Process, fault: bool): Effect
    requires q.StartReady?
  {
    if fault || !CanBeSaved(q) || !StartAccepted(w.table, q.chat, q.question, q.answer) then Fail(q, SaveFailed)
    else Effect(Finished(q.user, StartDone(q.chat.chatId)), PutStart(q.chat, q.question, q.answer))
  }

  // ----- continue

  function ContinueLoad(w: World, q: Process, fault: bool): Effect
    requires q.ContinueNew?
  {
    if fault then Fail(q, LoadFailed)
    else
      var loaded := LoadChat(w.table, q.chatId);
      if loaded.None? || loaded.value.userId != q.user then Fail(q, ChatNotFound)
      else Effect(ContinueLoaded(q.user, q.requestId, q.prompt, loaded.value, |Past(w, q.chatId)|), Nothing)
  }

  function ContinueClock(q: Process, now: Instant): Effect
    requires q.ContinueLoaded?
  {
    if !ContinuableAt(q.base, now) then Fail(q, Expired)
    else Effect(ContinueAsked(q.user, q.requestId, q.prompt, q.base, q.loadedAt, now), Nothing)
  }

  function ContinueGenerated(q: Process, g: Generated, now: Instant): Effect
    requires q.ContinueAsked?
  {
    if g.NoAnswer? then Fail(q, GenerationFailed)
    else
      var question := UserMessage(q.base.chatId, q.requestId, q.prompt, q.askedAt);
      var answer := Message(q.base.chatId, q.requestId, Llm, g.text, now, g.citations);
      var recorded := RecordExchange(q.base, question, answer);
      if recorded.Err? then Fail(q, OutOfOrder)
      else Effect(ContinueReady(q.user, q.base, q.loadedAt, recorded.value, question, answer), Nothing)
  }

  function ContinueCommitted(w: World, p: nat, q: Process, fault: bool): Effect
    requires q.ContinueReady?
  {
    if fault || !CanBeSaved(q) then Fail(q, SaveFailed)
    else if !ExchangeAccepted(w.table, q.chat, q.question, q.answer) then Fail(q, Conflict)
    else Effect(Finished(q.user, ExchangeDone(q.chat.chatId, q.base.version)), ExchangeWrite(p, q))
  }

  function ExchangeWrite(p: nat, q: Process): Write
    requires q.ContinueReady?
  {
    PutExchange(p, q.loadedAt, q.chat, q.question, q.answer)
  }

  // ----- rename

  function RenameCommitted(w: World, q: Process, fault: bool): Effect
    requires q.RenameNew?
  {
    if fault then Fail(q, TitleFailed)
    else if !RenameAccepted(w.table, q.chatId, q.user) then Fail(q, ChatNotFound)
    else Effect(Finished(q.user, RenameDone), SetTitle(q.chatId, q.title))
  }

  // ----- delete

  function DeleteLoad(w: World, q: Process, fault: bool): Effect
    requires q.DeleteNew?
  {
    if fault then Fail(q, DeleteFailed)
    else
      var loaded := LoadChat(w.table, q.chatId);
      if loaded.None? || loaded.value.userId != q.user then Fail(q, ChatNotFound)
      else Effect(DeleteQuerying(q.user, q.chatId, |Past(w, q.chatId)|, None, []), BeginDelete(q.chatId))
  }

  /** The keys one page answers: those beyond the cursor and up to where the page was cut. */
  function PageKeys(t: Table, chatId: Uuid, cursor: Option<Key>, upTo: Option<Key>): set<Key> {
    set k | k in t && k.chatId == chatId && (cursor.None? || KeyLess(cursor.value, k)) &&
      (upTo.None? || !KeyLess(upTo.value, k))
  }

  /** The process about to remove the first batch of a list of keys. */
  function NextRemoving(user: Uuid, chatId: Uuid, begunAt: nat, keys: seq<Key>): Process {
    if keys == [] then Finished(user, DeleteDone(chatId, begunAt))
    else
      var n := if |keys| < BATCH then |keys| else BATCH;
      DeleteRemoving(user, chatId, begunAt, Elements(keys[..n]), keys[n..])
  }

  /** One page. Its cursor is the last key it answers. */
  ghost function DeletePage(w: World, q: Process, upTo: Option<Key>, fault: bool): Effect
    requires q.DeleteQuerying?
  {
    KeyOrderIsTotal();
    var found := q.found + InOrder(PageKeys(w.table, q.chatId, q.cursor, upTo), KeyLess);
    if fault then Fail(q, DeleteFailed)
    else if upTo.None? then Effect(NextRemoving(q.user, q.chatId, q.begunAt, found), Nothing)
    else if upTo.value in PageKeys(w.table, q.chatId, q.cursor, upTo) then
      Effect(DeleteQuerying(q.user, q.chatId, q.begunAt, upTo, found), Nothing)
    else Effect(q, Nothing)
  }

  /** The keys of a batch go one by one in any order; a batch may fail with some of its keys left. */
  function DeleteRemove(q: Process, a: Action): Effect
    requires q.DeleteRemoving?
  {
    match a
    case RemoveOne(k) => if k in q.batch then
      Effect(DeleteRemoving(q.user, q.chatId, q.begunAt, q.batch - {k}, q.rest), Remove(k)) else Effect(q, Nothing)
    case NextBatch =>
      if q.batch == {} then Effect(NextRemoving(q.user, q.chatId, q.begunAt, q.rest), Nothing) else Effect(q, Nothing)
    case GiveUp => Fail(q, DeleteFailed)
    case _ => Effect(q, Nothing)
  }

  // ----- one action of one process

  ghost function React(w: World, p: nat, q: Process, a: Action): Effect {
    match q
    case StartNew(user, requestId, prompt) =>
      if a.ReadClock? then Effect(StartAsked(user, requestId, prompt, a.now), Nothing) else Effect(q, Nothing)
    case StartAsked(_, _, _, _) => if a.Generate? && a.freshId !in w.issued then
      StartGenerated(q, a.generated, a.now, a.freshId) else Effect(q, Nothing)
    case StartReady(_, _, _, _) => if a.Commit? then StartCommitted(w, q, a.fault) else Effect(q, Nothing)
    case ContinueNew(_, _, _, _) => if a.Load? then ContinueLoad(w, q, a.fault) else Effect(q, Nothing)
    case ContinueLoaded(_, _, _, _, _) => if a.ReadClock? then ContinueClock(q, a.now) else Effect(q, Nothing)
    case ContinueAsked(_, _, _, _, _, _) =>
      if a.Generate? then ContinueGenerated(q, a.generated, a.now) else Effect(q, Nothing)
    case ContinueReady(_, _, _, _, _, _) =>
      if a.Commit? then ContinueCommitted(w, p, q, a.fault) else Effect(q, Nothing)
    case RenameNew(_, _, _) => if a.Commit? then RenameCommitted(w, q, a.fault) else Effect(q, Nothing)
    case DeleteNew(_, _) => if a.Load? then DeleteLoad(w, q, a.fault) else Effect(q, Nothing)
    case DeleteQuerying(_, _, _, _, _) => if a.Page? then DeletePage(w, q, a.upTo, a.fault) else Effect(q, Nothing)
    case DeleteRemoving(_, _, _, _, _) => DeleteRemove(q, a)
    case Finished(_, _) => Effect(q, Nothing)
  }

  ghost function Apply(s: State, step: Step): State {
    match step
    case Arrive(p, q) => if p in s.processes || !IsNew(q) then s else s.(processes := s.processes[p := q])
    case Act(p, a) =>
      if p !in s.processes then s
      else
        var effect := React(s.world, p, s.processes[p], a);
        State(Perform(s.world, effect.write), s.processes[p := effect.next])
  }

  const INITIAL := State(World(map[], map[], {}, {}), map[])

  /** The state reached by a schedule of steps from the empty table. */
  ghost function Run(steps: seq<Step>): State {
    if steps == [] then INITIAL else Apply(Run(steps[..|steps| - 1]), steps[|steps| - 1])
  }

  // ----- what every process knows

  /** A snapshot is the chat as it was when the history was that long. */
  ghost predicate Snapshot(w: World, base: Chat, k: nat) {
    && base.chatId in w.logs && 1 <= k <= |w.logs[base.chatId]|
    && Shaped(w.logs[base.chatId][..k]) && Replay(w.logs[base.chatId][..k]) == base
  }

  ghost predicate Owned(w: World, chatId: Uuid, user: Uuid) {
    chatId in w.logs && Good(w.logs[chatId]) && Replay(w.logs[chatId]).userId == user
  }

  predicate AllIn(keys: seq<Key>, chatId: Uuid) {
    forall i | 0 <= i < |keys| :: keys[i].chatId == chatId
  }

  ghost predicate Knows(w: World, p: nat, q: Process) {
    match q
    case StartReady(user, chat, question, answer) =>
      GoodStart(Started(chat, question, answer)) && chat.userId == user && chat.chatId in w.issued
    case ContinueLoaded(user, _, _, base, k) => Snapshot(w, base, k) && base.userId == user
    case ContinueAsked(user, _, _, base, k, askedAt) =>
      Snapshot(w, base, k) && base.userId == user && ContinuableAt(base, askedAt)
    case ContinueReady(user, base, k, chat, question, answer) =>
      && Snapshot(w, base, k) && base.userId == user && ContinuableAt(base, question.sentAt)
      && RecordExchange(base, question, answer) == Ok(chat)
    case DeleteQuerying(user, c, n, cursor, found) =>
      c in w.deleting && Owned(w, c, user) && AllIn(found, c) && Swept(w, c, n, cursor, Elements(found))
    case DeleteRemoving(user, c, n, batch, rest) =>
      c in w.deleting && Owned(w, c, user) && (forall k | k in batch :: k.chatId == c) && AllIn(rest, c)
      && SweptAll(w, c, n, batch + Elements(rest))
    case Finished(_, ExchangeDone(c, v)) => CommittedBy(w, c, v, p)
    case Finished(_, DeleteDone(c, n)) => SweptAll(w, c, n, {})
    case _ => true
  }

  /** Every row of the chat up to the cursor is listed for removal, or came with a turn committed
      since position n of the history, where the delete began. */
  ghost predicate Swept(w: World, c: Uuid, n: nat, cursor: Option<Key>, listed: set<Key>) {
    && c in w.logs && n <= |w.logs[c]|
    && forall k | k in w.table && k.chatId == c && cursor.Some? && !KeyLess(cursor.value, k) ::
       k in listed || Added(w.logs[c], n, k)
  }

  ghost predicate SweptAll(w: World, c: Uuid, n: nat, listed: set<Key>) {
    && c in w.logs && n <= |w.logs[c]|
    && forall k | k in w.table && k.chatId == c :: k in listed || Added(w.logs[c], n, k)
  }

  /** The exchange that process p committed on version v is in the history. */
  ghost predicate CommittedBy(w: World, c: Uuid, v: nat, p: nat) {
    c in w.logs && exists i: nat :: ExchangeAt(w.logs[c], i, v, p)
  }

  predicate ExchangeAt(log: Log, i: nat, v: nat, p: nat) {
    && Shaped(log) && 1 <= i < |log| && log[i].Exchanged? && log[i].process == p
    && Replay(log[..log[i].loadedAt]).version == v
  }

  /** A new chat waiting to be saved has its id to itself. */
  ghost predicate Reserved(s: State) {
    && (forall p | p in s.processes && s.processes[p].StartReady? :: s.processes[p].chat.chatId !in s.world.logs)
    && (forall p, q | p in s.processes && q in s.processes && s.processes[p].StartReady? &&
         s.processes[q].StartReady? && p != q ::
          s.processes[p].chat.chatId != s.processes[q].chat.chatId)
  }

  ghost predicate Invariant(s: State) {
    && Consistent(s.world)
    && (forall p | p in s.processes :: Knows(s.world, p, s.processes[p]))
    && Reserved(s)
  }

  // ----- knowledge survives the writes of others

  lemma SnapshotSurvives(w: World, v: World, base: Chat, k: nat)
    requires Advances(w, v) && Snapshot(w, base, k)
    ensures Snapshot(v, base, k)
  {
    assert w.logs[base.chatId] <= v.logs[base.chatId];
    assert v.logs[base.chatId][..k] == w.logs[base.chatId][..k];
  }

  lemma OwnershipSurvives(w: World, v: World, c: Uuid, user: Uuid)
    requires Advances(w, v) && Consistent(v) && Owned(w, c, user)
    ensures Owned(v, c, user)
  {
    var n := |w.logs[c]|;
    assert GoodLogOf(v, c);
    assert v.logs[c][..n] == w.logs[c];
    IdentityKept(v.logs[c], n);
  }

  lemma CommitSurvives(w: World, v: World, c: Uuid, ver: nat, p: nat)
    requires Advances(w, v) && Consistent(v) && CommittedBy(w, c, ver, p)
    ensures CommittedBy(v, c, ver, p)
  {
    var i: nat :| ExchangeAt(w.logs[c], i, ver, p);
    assert GoodLogOf(v, c);
    assert w.logs[c] <= v.logs[c];
    assert Shaped(w.logs[c]);
    assert v.logs[c][i] == w.logs[c][i];
    assert v.logs[c][..v.logs[c][i].loadedAt] == w.logs[c][..w.logs[c][i].loadedAt];
    assert ExchangeAt(v.logs[c], i, ver, p);
  }

  lemma SweepSurvives(w: World, v: World, c: Uuid, n: nat, k: Key, listed: set<Key>)
    requires Advances(w, v) && c in w.logs && n <= |w.logs[c]| && k in v.table && k.chatId == c
    requires k in w.table ==> k in listed || Added(w.logs[c], n, k)
    ensures k in listed || Added(v.logs[c], n, k)
  {
    assert w.logs[c] <= v.logs[c];
    if k in w.table {
      if k !in listed { AddedLater(w.logs[c], n, v.logs[c], n, k); }
    } else {
      AddedLater(v.logs[c], |w.logs[c]|, v.logs[c], n, k);
    }
  }

  lemma SweptSurvives(w: World, v: World, c: Uuid, n: nat, cursor: Option<Key>, listed: set<Key>)
    requires Advances(w, v) && Swept(w, c, n, cursor, listed)
    ensures Swept(v, c, n, cursor, listed)
  {
    assert w.logs[c] <= v.logs[c];
    forall k | k in v.table && k.chatId == c && cursor.Some? && !KeyLess(cursor.value, k)
      ensures k in listed || Added(v.logs[c], n, k)
    {
      SweepSurvives(w, v, c, n, k, listed);
    }
  }

  lemma SweptAllSurvives(w: World, v: World, c: Uuid, n: nat, listed: set<Key>)
    requires Advances(w, v) && SweptAll(w, c, n, listed)
    ensures SweptAll(v, c, n, listed)
  {
    assert w.logs[c] <= v.logs[c];
    forall k | k in v.table && k.chatId == c ensures k in listed || Added(v.logs[c], n, k) {
      SweepSurvives(w, v, c, n, k, listed);
    }
  }

  lemma HistoriesGrow(w: World, v: World)
    requires Advances(w, v)
    ensures w.issued <= v.issued && w.deleting <= v.deleting
  {
  }

  lemma ContinueSurvives(w: World, v: World, p: nat, q: Process)
    requires Advances(w, v) && Knows(w, p, q) && (q.ContinueLoaded? || q.ContinueAsked? || q.ContinueReady?)
    ensures Knows(v, p, q)
  {
    hide Advances, Snapshot, ContinuableAt, RecordExchange;
    SnapshotSurvives(w, v, q.base, q.loadedAt);
  }

  lemma DeleteSurvives(w: World, v: World, p: nat, q: Process)
    requires Advances(w, v) && Consistent(v) && Knows(w, p, q) && (q.DeleteQuerying? || q.DeleteRemoving?)
    ensures Knows(v, p, q)
  {
    HistoriesGrow(w, v);
    hide Advances, Consistent, Owned, Swept, SweptAll, AllIn;
    OwnershipSurvives(w, v, q.chatId, q.user);
    if q.DeleteQuerying? {
      SweptSurvives(w, v, q.chatId, q.begunAt, q.cursor, Elements(q.found));
    } else {
      SweptAllSurvives(w, v, q.chatId, q.begunAt, q.batch + Elements(q.rest));
    }
  }

  lemma OutcomeSurvives(w: World, v: World, p: nat, q: Process)
    requires Advances(w, v) && Consistent(v) && Knows(w, p, q) && q.Finished?
    ensures Knows(v, p, q)
  {
    hide Advances, Consistent, SweptAll, CommittedBy;
    if q.outcome.DeleteDone? {
      SweptAllSurvives(w, v, q.outcome.chatId, q.outcome.begunAt, {});
    } else if q.outcome.ExchangeDone? {
      CommitSurvives(w, v, q.outcome.chatId, q.outcome.loadedVersion, p);
    }
  }

  lemma StartSurvives(w: World, v: World, p: nat, q: Process)
    requires Advances(w, v) && Knows(w, p, q) && (IsNew(q) || q.StartAsked? || q.StartReady?)
    ensures Knows(v, p, q)
  {
    HistoriesGrow(w, v);
    hide Advances, GoodStart;
  }

  lemma KnowledgeSurvives(w: World, v: World, p: nat, q: Process)
    requires Advances(w, v) && Consistent(v) && Knows(w, p, q)
    ensures Knows(v, p, q)
  {
    hide Advances, Consistent, Knows;
    if q.ContinueLoaded? || q.ContinueAsked? || q.ContinueReady? {
      ContinueSurvives(w, v, p, q);
    } else if q.DeleteQuerying? || q.DeleteRemoving? {
      DeleteSurvives(w, v, p, q);
    } else if q.Finished? {
      OutcomeSurvives(w, v, p, q);
    } else {
      StartSurvives(w, v, p, q);
    }
  }

  // ----- every step is legal and leaves every process knowing what it should

  /** A legal effect of process p: the write may be performed, and afterwards p knows what it should. */
  ghost predicate Sound(w: World, p: nat, e: Effect) {
    Legal(w, e.write) && Knows(Perform(w, e.write), p, e.next)
  }

  lemma StartCommitSound(w: World, p: nat, q: Process, fault: bool)
    requires q.StartReady? && Knows(w, p, q) && q.chat.chatId !in w.logs
    ensures Sound(w, p, StartCommitted(w, q, fault))
  {
  }

  lemma ContinueLoadSound(w: World, p: nat, q: Process, fault: bool)
    requires Consistent(w) && q.ContinueNew?
    ensures Sound(w, p, ContinueLoad(w, q, fault))
  {
    if ChatKey(q.chatId) in w.table {
      assert Accounted(w, ChatKey(q.chatId));
      var log := w.logs[q.chatId];
      assert GoodLogOf(w, q.chatId);
      assert log[..|log|] == log;
    }
  }

  lemma CommitIsOnRecord(log: Log, e: Event)
    requires Good(log) && e.Exchanged? && Committable(log, e)
    ensures ExchangeAt(log + [e], |log|, Replay(log).version, e.process)
  {
    GoodCommit(log, e);
    assert (log + [e])[..e.loadedAt] == log[..e.loadedAt];
  }

  lemma ExchangeIsOnRecord(w: World, p: nat, k: nat, chat: Chat, user: Message, llm: Message)
    requires Consistent(w) && Legal(w, PutExchange(p, k, chat, user, llm))
    ensures CommittedBy(Perform(w, PutExchange(p, k, chat, user, llm)), chat.chatId, chat.version - 1, p)
  {
    var c := chat.chatId;
    var log, e := w.logs[c], Exchanged(p, k, user, llm);
    assert Accounted(w, ChatKey(c));
    CommitIsOnRecord(log, e);
    assert Perform(w, PutExchange(p, k, chat, user, llm)).logs[c] == log + [e];
  }

  lemma ReadyIsLegal(w: World, p: nat, q: Process)
    requires Consistent(w) && q.ContinueReady? && Knows(w, p, q)
    requires CanBeSaved(q) && ExchangeAccepted(w.table, q.chat, q.question, q.answer)
    ensures Legal(w, PutExchange(p, q.loadedAt, q.chat, q.question, q.answer))
  {
    assert GoodLogOf(w, q.chat.chatId);
  }

  lemma WinSound(w: World, p: nat, user: Uuid, c: Uuid, ver: nat, write: Write)
    requires Legal(w, write) && CommittedBy(Perform(w, write), c, ver, p)
    ensures Sound(w, p, Effect(Finished(user, ExchangeDone(c, ver)), write))
  {
  }

  lemma FailSound(w: World, p: nat, q: Process, failure: Failure)
    ensures Sound(w, p, Fail(q, failure))
  {
  }

  lemma ReadyVersions(w: World, p: nat, q: Process)
    requires q.ContinueReady? && Knows(w, p, q)
    ensures q.chat.version - 1 == q.base.version
  {
  }

  lemma ContinueCommitSound(w: World, p: nat, q: Process, fault: bool)
    requires Consistent(w) && q.ContinueReady? && Knows(w, p, q)
    ensures Sound(w, p, ContinueCommitted(w, p, q, fault))
  {
    hide Sound, Legal, Perform, Consistent, Knows, CommittedBy, ExchangeAccepted, CanBeSaved;
    if fault || !CanBeSaved(q) {
      FailSound(w, p, q, SaveFailed);
    } else if !ExchangeAccepted(w.table, q.chat, q.question, q.answer) {
      FailSound(w, p, q, Conflict);
    } else {
      ReadyIsLegal(w, p, q);
      ReadyVersions(w, p, q);
      ExchangeIsOnRecord(w, p, q.loadedAt, q.chat, q.question, q.answer);
      WinSound(w, p, q.user, q.chat.chatId, q.base.version, ExchangeWrite(p, q));
    }
  }

  lemma RenameSound(w: World, p: nat, q: Process, fault: bool)
    requires q.RenameNew?
    ensures Sound(w, p, RenameCommitted(w, q, fault))
  {
  }

  lemma DeleteLoadSound(w: World, p: nat, q: Process, fault: bool)
    requires Consistent(w) && q.DeleteNew?
    ensures Sound(w, p, DeleteLoad(w, q, fault))
  {
    hide Good, Replay, KeyLess;
    if ChatKey(q.chatId) in w.table {
      assert Accounted(w, ChatKey(q.chatId));
    }
  }

  lemma NextRemovingKnows(w: World, p: nat, user: Uuid, c: Uuid, n: nat, keys: seq<Key>)
    requires c in w.deleting && Owned(w, c, user) && AllIn(keys, c) && SweptAll(w, c, n, Elements(keys))
    ensures Knows(w, p, NextRemoving(user, c, n, keys))
  {
    if keys == [] {
      assert Elements(keys) == {};
    } else {
      var m := if |keys| < BATCH then |keys| else BATCH;
      assert keys == keys[..m] + keys[m..];
      assert Elements(keys) == Elements(keys[..m]) + Elements(keys[m..]);
    }
  }

  lemma PageSweeps(w: World, q: Process, upTo: Option<Key>, found: seq<Key>)
    requires q.DeleteQuerying? && Swept(w, q.chatId, q.begunAt, q.cursor, Elements(q.found))
    requires Elements(found) == Elements(q.found) + PageKeys(w.table, q.chatId, q.cursor, upTo)
    ensures Swept(w, q.chatId, q.begunAt, upTo, Elements(found))
    ensures upTo.None? ==> SweptAll(w, q.chatId, q.begunAt, Elements(found))
  {
  }

  lemma PageFound(t: Table, c: Uuid, cursor: Option<Key>, upTo: Option<Key>, found: seq<Key>)
    requires AllIn(found, c)
    ensures StrictTotal(KeyLess)
    ensures var all := found + InOrder(PageKeys(t, c, cursor, upTo), KeyLess);
            AllIn(all, c) && Elements(all) == Elements(found) + PageKeys(t, c, cursor, upTo)
  {
    KeyOrderIsTotal();
    var page := PageKeys(t, c, cursor, upTo);
    InOrderIsOrdered(page, KeyLess);
    var answer := InOrder(page, KeyLess);
    forall i | 0 <= i < |answer| ensures answer[i].chatId == c {
      assert answer[i] in answer;
    }
  }

  lemma DeletePageSound(w: World, p: nat, q: Process, upTo: Option<Key>, fault: bool)
    requires q.DeleteQuerying? && Knows(w, p, q)
    ensures Sound(w, p, DeletePage(w, q, upTo, fault))
  {
    PageFound(w.table, q.chatId, q.cursor, upTo, q.found);
    var found := q.found + InOrder(PageKeys(w.table, q.chatId, q.cursor, upTo), KeyLess);
    PageSweeps(w, q, upTo, found);
    if upTo.None? {
      NextRemovingKnows(w, p, q.user, q.chatId, q.begunAt, found);
    }
  }

  lemma RemoveSound(w: World, p: nat, q: Process, a: Action)
    requires q.DeleteRemoving? && Knows(w, p, q)
    ensures Sound(w, p, DeleteRemove(q, a))
  {
    if a.NextBatch? && q.batch == {} {
      assert q.batch + Elements(q.rest) == Elements(q.rest);
      NextRemovingKnows(w, p, q.user, q.chatId, q.begunAt, q.rest);
    }
  }

  lemma ReactIsSound(w: World, p: nat, q: Process, a: Action)
    requires Consistent(w) && Knows(w, p, q)
    requires q.StartReady? ==> q.chat.chatId !in w.logs
    ensures Sound(w, p, React(w, p, q, a))
  {
    hide Sound, Legal, Perform, Consistent, Knows, StartCommitted, ContinueLoad, ContinueCommitted, RenameCommitted;
    hide DeleteLoad, DeletePage, DeleteRemove, StartGenerated, ContinueClock, ContinueGenerated;
    IdleSound(w, p, q);
    match q
    case StartNew(_, _, _) => AskSound(w, p, q, a);
    case StartAsked(_, _, _, _) => AskSound(w, p, q, a);
    case StartReady(_, _, _, _) => if a.Commit? { StartCommitSound(w, p, q, a.fault); }
    case ContinueNew(_, _, _, _) => if a.Load? { ContinueLoadSound(w, p, q, a.fault); }
    case ContinueLoaded(_, _, _, _, _) => if a.ReadClock? { ClockSound(w, p, q, a.now); }
    case ContinueAsked(_, _, _, _, _, _) => if a.Generate? { AnswerSound(w, p, q, a.generated, a.now); }
    case ContinueReady(_, _, _, _, _, _) => if a.Commit? { ContinueCommitSound(w, p, q, a.fault); }
    case RenameNew(_, _, _) => if a.Commit? { RenameSound(w, p, q, a.fault); }
    case DeleteNew(_, _) => if a.Load? { DeleteLoadSound(w, p, q, a.fault); }
    case DeleteQuerying(_, _, _, _, _) => if a.Page? { DeletePageSound(w, p, q, a.upTo, a.fault); }
    case DeleteRemoving(_, _, _, _, _) => RemoveSound(w, p, q, a);
    case Finished(_, _) =>
  }

  lemma IdleSound(w: World, p: nat, q: Process)
    requires Knows(w, p, q)
    ensures Sound(w, p, Effect(q, Nothing))
  {
    hide Knows;
  }

  lemma AskSound(w: World, p: nat, q: Process, a: Action)
    requires q.StartNew? || q.StartAsked?
    ensures Sound(w, p, React(w, p, q, a))
  {
  }

  lemma ClockSound(w: World, p: nat, q: Process, now: Instant)
    requires q.ContinueLoaded? && Knows(w, p, q)
    ensures Sound(w, p, ContinueClock(q, now))
  {
    hide Snapshot;
  }

  lemma AnswerSound(w: World, p: nat, q: Process, g: Generated, now: Instant)
    requires q.ContinueAsked? && Knows(w, p, q)
    ensures Sound(w, p, ContinueGenerated(q, g, now))
  {
    hide Snapshot, ContinuableAt;
  }

  /** A write adds a chat to the history only when it saves a started chat. */
  lemma OnlyStartsAddLogs(w: World, write: Write)
    requires Consistent(w) && Legal(w, write)
    ensures Perform(w, write).logs.Keys == w.logs.Keys + (if write.PutStart? then {write.chat.chatId} else {})
  {
    if write.SetTitle? {
      assert Accounted(w, ChatKey(write.chatId));
    }
  }

  lemma ReservationOf(w: World, p: nat, q: Process, a: Action)
    ensures var e := React(w, p, q, a);
            && (e.next.StartReady? ==> e.next == q || e.next.chat.chatId !in w.issued)
            && (e.write.PutStart? ==> q.StartReady? && e.write.chat == q.chat && !e.next.StartReady?)
  {
  }

  lemma ReservationsSurvive(s: State, p: nat, a: Action)
    requires Invariant(s) && p in s.processes
    ensures Reserved(Apply(s, Act(p, a)))
  {
    var w, q := s.world, s.processes[p];
    var e := React(w, p, q, a);
    var t := Apply(s, Act(p, a));
    ReactIsSound(w, p, q, a);
    OnlyStartsAddLogs(w, e.write);
    ReservationOf(w, p, q, a);
    forall c | c in w.logs ensures c in w.issued {
      assert GoodLogOf(w, c);
    }
    forall r | r in s.processes && s.processes[r].StartReady? ensures s.processes[r].chat.chatId in w.issued {
      assert Knows(w, r, s.processes[r]);
    }
    ReservedAfter(s, p, e, t);
  }

  lemma ReservedAfter(s: State, p: nat, e: Effect, t: State)
    requires Reserved(s) && p in s.processes
    requires forall r | r in s.processes && s.processes[r].StartReady? :: s.processes[r].chat.chatId in s.world.issued
    requires s.world.logs.Keys <= s.world.issued
    requires t.processes == s.processes[p := e.next]
    requires t.world.logs.Keys == s.world.logs.Keys + (if e.write.PutStart? then {e.write.chat.chatId} else {})
    requires e.next.StartReady? ==> e.next == s.processes[p] || e.next.chat.chatId !in s.world.issued
    requires e.write.PutStart? ==>
               s.processes[p].StartReady? && e.write.chat == s.processes[p].chat && !e.next.StartReady?
    ensures Reserved(t)
  {
  }

  lemma EveryoneKnows(s: State, p: nat, a: Action)
    requires Invariant(s) && p in s.processes
    requires var t := Apply(s, Act(p, a)); Consistent(t.world) && Advances(s.world, t.world)
    ensures var t := Apply(s, Act(p, a)); forall r | r in t.processes :: Knows(t.world, r, t.processes[r])
  {
    var t := Apply(s, Act(p, a));
    ReactIsSound(s.world, p, s.processes[p], a);
    forall r | r in t.processes ensures Knows(t.world, r, t.processes[r]) {
      if r != p { KnowledgeSurvives(s.world, t.world, r, s.processes[r]); }
    }
  }

  lemma NewKnows(w: World, p: nat, q: Process)
    ensures IsNew(q) ==> Knows(w, p, q)
  {
  }

  lemma AdvancesNowhere(w: World)
    ensures Advances(w, w)
  {
  }

  /** One step of any request keeps the invariant and only moves the world forward. */
  lemma StepKeeps(s: State, step: Step)
    requires Invariant(s)
    ensures Invariant(Apply(s, step)) && Advances(s.world, Apply(s, step).world)
  {
    AdvancesNowhere(s.world);
    hide React, Perform, Legal, Consistent, Knows, Advances;
    if step.Act? && step.process in s.processes {
      var p, a := step.process, step.action;
      ReactIsSound(s.world, p, s.processes[p], a);
      LegalWritesKeep(s.world, React(s.world, p, s.processes[p], a).write);
      EveryoneKnows(s, p, a);
      ReservationsSurvive(s, p, a);
    } else if step.Arrive? {
      NewKnows(s.world, step.process, step.request);
    }
  }

  /** In every state that any schedule of requests can reach, the invariant holds. */
  lemma {:induction false} RunKeeps(steps: seq<Step>)
    ensures Invariant(Run(steps))
  {
    if steps != [] {
      RunKeeps(steps[..|steps| - 1]);
      StepKeeps(Run(steps[..|steps| - 1]), steps[|steps| - 1]);
    }
  }

  lemma RunStep(steps: seq<Step>, step: Step)
    ensures Run(steps + [step]) == Apply(Run(steps), step)
  {
    assert (steps + [step])[..|steps|] == steps;
  }

  /** However a run goes on, it moves the world forward. */
  lemma {:induction false} RunAdvances(steps: seq<Step>, more: seq<Step>)
    ensures Advances(Run(steps).world, Run(steps + more).world)
  {
    if more == [] {
      assert steps + more == steps;
    } else {
      var n := |more| - 1;
      var here := steps + more[..n];
      assert steps + more == here + [more[n]];
      RunAdvances(steps, more[..n]);
      RunKeeps(here);
      RunStep(here, more[n]);
      StepKeeps(Run(here), more[n]);
      AdvancesTransitively(Run(steps).world, Run(here).world, Run(steps + more).world);
    }
  }

  /** An earlier moment of a run and a later one. */
  lemma MomentAdvances(s: seq<Step>, after: seq<Step>)
    requires s <= after
    ensures Consistent(Run(s).world) && Consistent(Run(after).world) && Advances(Run(s).world, Run(after).world)
  {
    assert after == s + after[|s|..];
    RunKeeps(s);
    RunKeeps(after);
    RunAdvances(s, after[|s|..]);
  }
}
