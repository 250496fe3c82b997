/** What start, continue and rename answer, and what they leave in the table, decided by the tables they read and
    write, their inputs and the clock alone. */
module Verdicts {
  import opened Text
  import opened Time
  import opened Uuids
  import opened Citations
  import opened Domain
  import opened Store
  import opened World
  import opened Protocol
  import opened Schedules

  /** The chat is stored for this user. */
  predicate IsOwner(t: Table, chatId: Uuid, user: Uuid) {
    ChatKey(chatId) in t && t[ChatKey(chatId)].ChatRow? && t[ChatKey(chatId)].chat.userId == user
  }

  /** At most 24 hours have passed since the last update. */
  predicate WithinADay(lastUpdatedAt: Instant, askedAt: Instant) {
    askedAt <= lastUpdatedAt + 86_400_000_000
  }

  predicate BothUnused(t: Table, chatId: Uuid, requestId: Uuid, askedAt: Instant, answeredAt: Instant) {
    MessageKey(chatId, askedAt, requestId, User) !in t && MessageKey(chatId, answeredAt, requestId, Llm) !in t
  }

  /** The table with the row of the chat and the two messages of a turn put. */
  predicate TurnPut(before: Table, after: Table, chat: Chat, requestId: Uuid, prompt: string, askedAt: Instant,
                    text: string, citations: seq<Citation>, answeredAt: Instant) {
    after == before[ChatKey(chat.chatId) := ChatRow(chat)]
      [MessageKey(chat.chatId, askedAt, requestId, User) :=
        MessageRow(Message(chat.chatId, requestId, User, prompt, askedAt, []))]
      [MessageKey(chat.chatId, answeredAt, requestId, Llm) :=
        MessageRow(Message(chat.chatId, requestId, Llm, text, answeredAt, citations))]
  }

  /** The message is stored under the key made of its own fields. */
  predicate StoredMessage(t: Table, m: Message) {
    var k := MessageKey(m.chatId, m.sentAt, m.requestId, m.sender);
    k in t && t[k] == MessageRow(m)
  }

  lemma BothStored(t: Table, chat: Chat, user: Message, llm: Message)
    requires KeyOf(user) != KeyOf(llm)
    ensures var after := PutTurn(t, chat, user, llm); StoredMessage(after, user) && StoredMessage(after, llm)
  {
  }

  lemma StartStored(t: Table, chat: Chat, user: Message, llm: Message)
    requires StartAccepted(t, chat, user, llm)
    ensures var after := PutTurn(t, chat, user, llm); StoredMessage(after, user) && StoredMessage(after, llm)
  {
    BothStored(t, chat, user, llm);
  }

  // ----- continue

  /** From the loaded chat on. The table is the one the save meets, or the last one when the request fails before. */
  predicate ExchangeVerdict(chat: Chat, saving: Table, after: Table, requestId: Uuid, prompt: string,
                            askedAt: Instant, g: Generated, answeredAt: Instant, outcome: Outcome) {
    var k := ChatKey(chat.chatId);
    if !WithinADay(chat.lastUpdatedAt, askedAt) then outcome == Failed(Expired) && after == saving
    else if g.NoAnswer? then outcome == Failed(GenerationFailed) && after == saving
    else if askedAt < chat.lastUpdatedAt || answeredAt < askedAt then outcome == Failed(OutOfOrder) && after == saving
    else if !StorableCitations(g.citations) then outcome == Failed(SaveFailed) && after == saving
    else if k in saving && saving[k].ChatRow? && saving[k].chat.version == chat.version
         && saving[k].chat.userId == chat.userId && BothUnused(saving, chat.chatId, requestId, askedAt, answeredAt) then
      && outcome == ExchangeDone(chat.chatId, chat.version)
      && TurnPut(saving, after, Chat(chat.chatId, chat.sessionId, chat.title, chat.userId, chat.createdAt, answeredAt,
                                     chat.version + 1), requestId, prompt, askedAt, g.text, g.citations, answeredAt)
    else outcome == Failed(Conflict) && after == saving
  }

  /** A continuation without a failure of the client: the tables at its load, before its last effect and after it. */
  predicate ContinueVerdict(loading: Table, saving: Table, after: Table, user: Uuid, chatId: Uuid, requestId: Uuid,
                            prompt: string, askedAt: Instant, g: Generated, answeredAt: Instant, outcome: Outcome) {
    if !IsOwner(loading, chatId, user) then outcome == Failed(ChatNotFound) && after == saving
    else
      var chat := loading[ChatKey(chatId)].chat;
      && chat.chatId == chatId
      && ExchangeVerdict(chat, saving, after, requestId, prompt, askedAt, g, answeredAt, outcome)
  }

  // ----- start

  /** The code points that count as white space. */
  const WHITE_SPACE: set<int> := {
    0x9, 0xA, 0xB, 0xC, 0xD, 0x1C, 0x1D, 0x1E, 0x1F, 0x20, 0x85, 0xA0, 0x1680, 0x2000, 0x2001, 0x2002, 0x2003, 0x2004,
    0x2005, 0x2006, 0x2007, 0x2008, 0x2009, 0x200A, 0x2028, 0x2029, 0x202F, 0x205F, 0x3000}

  predicate OnlyWhiteSpace(s: string) {
    forall i | 0 <= i < |s| :: s[i] as int in WHITE_SPACE
  }

  /** A start without a failure of the client, whose chat id is new. */
  predicate StartVerdict(saving: Table, after: Table, user: Uuid, requestId: Uuid, prompt: string, chatId: Uuid,
                         askedAt: Instant, g: Generated, answeredAt: Instant, outcome: Outcome) {
    if g.NoAnswer? then outcome == Failed(GenerationFailed) && after == saving
    else if OnlyWhiteSpace(g.sessionId) then outcome == Failed(BadSession) && after == saving
    else if answeredAt < askedAt then outcome == Failed(OutOfOrder) && after == saving
    else if !StorableCitations(g.citations) then outcome == Failed(SaveFailed) && after == saving
    else
      var title := if |prompt| <= 10 then prompt else prompt[..10] + "...";
      && outcome == StartDone(chatId)
      && TurnPut(saving, after, Chat(chatId, g.sessionId, title, user, answeredAt, answeredAt, 0), requestId, prompt,
                 askedAt, g.text, g.citations, answeredAt)
  }

  // ----- rename

  predicate RenameVerdict(before: Table, after: Table, user: Uuid, chatId: Uuid, title: string, outcome: Outcome) {
    if !IsOwner(before, chatId, user) then outcome == Failed(ChatNotFound) && after == before
    else
      var c := before[ChatKey(chatId)].chat;
      && outcome == RenameDone
      && after == before[ChatKey(chatId) := ChatRow(Chat(c.chatId, c.sessionId, title, c.userId, c.createdAt,
                                                         c.lastUpdatedAt, c.version))]
  }

  // ----- what the machine does with a request alone

  lemma BlankIsWhiteSpace(s: string)
    ensures IsBlank(s) <==> OnlyWhiteSpace(s)
  {
    forall i | 0 <= i < |s| ensures IsSpace(s[i]) <==> s[i] as int in WHITE_SPACE {
      SpaceIsWhite(s[i]);
    }
  }

  lemma SpaceIsWhite(c: char)
    ensures IsSpace(c) <==> c as int in WHITE_SPACE
  {
  }

  lemma RowIsOfChat(steps: seq<Step>, c: Uuid)
    requires ChatKey(c) in Run(steps).world.table
    ensures var row := Run(steps).world.table[ChatKey(c)]; row.ChatRow? && row.chat.chatId == c
  {
    RunKeeps(steps);
    assert Accounted(Run(steps).world, ChatKey(c)) && GoodLogOf(Run(steps).world, c);
  }

  /** A finished request does nothing more. */
  lemma Rests(steps: seq<Step>, p: nat, q: Process, a: Action)
    requires q.Finished? && At(steps, p, q)
    ensures At(steps + [Act(p, a)], p, q) && Run(steps + [Act(p, a)]).world == Run(steps).world
  {
    hide Run;
    Acted(steps, p, q, a);
  }

  /** The save of a continuation. */
  lemma SaveVerdict(w: World, p: nat, q: Process, requestId: Uuid, prompt: string, askedAt: Instant, g: Generated,
                    answeredAt: Instant)
    requires q.ContinueReady? && g.Answer? && WithinADay(q.base.lastUpdatedAt, askedAt)
    requires q.base.lastUpdatedAt <= askedAt <= answeredAt
    requires q.question == Message(q.base.chatId, requestId, User, prompt, askedAt, [])
    requires q.answer == Message(q.base.chatId, requestId, Llm, g.text, answeredAt, g.citations)
    requires q.chat == Chat(q.base.chatId, q.base.sessionId, q.base.title, q.base.userId, q.base.createdAt, answeredAt,
                            q.base.version + 1)
    ensures var e := ContinueCommitted(w, p, q, false);
            && e.next.Finished?
            && ExchangeVerdict(q.base, w.table, Perform(w, e.write).table, requestId, prompt, askedAt, g, answeredAt,
                               e.next.outcome)
  {
    NoCitationsStorable();
  }

  /** The verdict on a continuation that ends before its save. */
  lemma EndsEarly(chat: Chat, t: Table, requestId: Uuid, prompt: string, askedAt: Instant, g: Generated,
                  answeredAt: Instant, failure: Failure)
    requires if !WithinADay(chat.lastUpdatedAt, askedAt) then failure == Expired
             else if g.NoAnswer? then failure == GenerationFailed
             else (askedAt < chat.lastUpdatedAt || answeredAt < askedAt) && failure == OutOfOrder
    ensures ExchangeVerdict(chat, t, t, requestId, prompt, askedAt, g, answeredAt, Failed(failure))
  {
  }

  /** The verdict at the save, told by whether the write was accepted. */
  lemma SaveDecides(chat: Chat, saving: Table, after: Table, requestId: Uuid, prompt: string, askedAt: Instant,
                    g: Generated, answeredAt: Instant, failure: Option<Failure>)
    requires g.Answer? && WithinADay(chat.lastUpdatedAt, askedAt) && chat.lastUpdatedAt <= askedAt <= answeredAt
    requires var next := Chat(chat.chatId, chat.sessionId, chat.title, chat.userId, chat.createdAt, answeredAt,
                              chat.version + 1);
             var question := Message(chat.chatId, requestId, User, prompt, askedAt, []);
             var answer := Message(chat.chatId, requestId, Llm, g.text, answeredAt, g.citations);
             && (failure == None ==> ExchangeAccepted(saving, next, question, answer) && StorableMessage(answer))
             && (failure == Some(Conflict) ==>
                  !ExchangeAccepted(saving, next, question, answer) && StorableMessage(answer))
             && (failure == None || failure == Some(Conflict) || (failure == Some(SaveFailed) &&
                  !StorableMessage(answer)))
             && after == if failure == None then PutTurn(saving, next, question, answer) else saving
    ensures ExchangeVerdict(chat, saving, after, requestId, prompt, askedAt, g, answeredAt,
                            if failure.Some? then Failed(failure.value) else ExchangeDone(chat.chatId, chat.version))
  {
  }

  /** From the load on: what the machine does is the verdict. */
  lemma ExchangeAlone(steps: seq<Step>, p: nat, q: Process, askedAt: Instant, g: Generated, answeredAt: Instant)
    requires q.ContinueLoaded? && At(steps, p, q)
    ensures var after := steps + ExchangeScript(p, askedAt, g, answeredAt, false);
            && p in Run(after).processes && Run(after).processes[p].Finished?
            && ExchangeVerdict(q.base, Run(steps).world.table, Run(after).world.table, q.requestId, q.prompt, askedAt,
                               g, answeredAt, Run(after).processes[p].outcome)
  {
    hide Run, TurnPut, BothUnused;
    var a, b, c := ReadClock(askedAt), Generate(g, answeredAt, 0), Commit(false);
    var s1 := steps + [Act(p, a)];
    var s2 := s1 + [Act(p, b)];
    var after := steps + ExchangeScript(p, askedAt, g, answeredAt, false);
    assert after == s2 + [Act(p, c)];
    Asked(steps, p, q, askedAt);
    var q1 := ContinueClock(q, askedAt).next;
    if q1.Finished? {
      Rests(s1, p, q1, b);
      Rests(s2, p, q1, c);
      return;
    }
    Answered(s1, p, q1, g, answeredAt);
    var q2 := ContinueGenerated(q1, g, answeredAt).next;
    if q2.Finished? {
      Rests(s2, p, q2, c);
      return;
    }
    Acted(s2, p, q2, c);
    SaveVerdict(Run(s2).world, p, q2, q.requestId, q.prompt, askedAt, g, answeredAt);
  }

  /** A continuation that runs alone and meets no failure of the client. It succeeds exactly when the chat is the
      user's, the question comes at or after the last update and within 24 hours of it, the answer comes at or after
      the question, it can be stored and both message keys are unused. It ends out of order exactly when one of the
      two time comparisons fails on an answered question in time. */
  lemma ContinuationAlone(steps: seq<Step>, p: nat, user: Uuid, chatId: Uuid, requestId: Uuid, prompt: string,
                          askedAt: Instant, g: Generated, answeredAt: Instant)
    requires Own(p, steps) == []
    ensures var after := steps + ContinueScript(p, ContinueNew(user, chatId, requestId, prompt), askedAt, g, answeredAt,
                                                false, false);
            && p in Run(after).processes && Run(after).processes[p].Finished?
            && AloneContinues(Run(steps).world.table, Run(after).world.table, user, chatId, requestId, prompt, askedAt,
                              g, answeredAt, Run(after).processes[p].outcome)
  {
    hide Run, ExchangeVerdict, ExchangeScript, AloneContinues;
    var request, t := ContinueNew(user, chatId, requestId, prompt), Run(steps).world.table;
    var s1 := steps + [Arrive(p, request)];
    var s2 := s1 + [Act(p, Load(false))];
    var script := ExchangeScript(p, askedAt, g, answeredAt, false);
    var after := steps + ContinueScript(p, request, askedAt, g, answeredAt, false, false);
    assert after == s2 + script;
    Arrived(steps, p, request);
    Acted(s1, p, request, Load(false));
    var q := ContinueLoad(Run(s1).world, request, false).next;
    if q.Finished? {
      FinishedAlone(s2, p, q, askedAt, g, answeredAt);
    } else {
      RowIsOfChat(s1, chatId);
      ExchangeAlone(s2, p, q, askedAt, g, answeredAt);
    }
    VerdictAlone(t, Run(after).world.table, user, chatId, requestId, prompt, askedAt, g, answeredAt,
                 Run(after).processes[p].outcome);
  }

  lemma FinishedAlone(steps: seq<Step>, p: nat, q: Process, askedAt: Instant, g: Generated, answeredAt: Instant)
    requires q.Finished? && At(steps, p, q)
    ensures var after := steps + ExchangeScript(p, askedAt, g, answeredAt, false);
            At(after, p, q) && Run(after).world == Run(steps).world
  {
    hide Run;
    var s1 := steps + [Act(p, ReadClock(askedAt))];
    var s2 := s1 + [Act(p, Generate(g, answeredAt, 0))];
    assert steps + ExchangeScript(p, askedAt, g, answeredAt, false) == s2 + [Act(p, Commit(false))];
    Rests(steps, p, q, ReadClock(askedAt));
    Rests(s1, p, q, Generate(g, answeredAt, 0));
    Rests(s2, p, q, Commit(false));
  }

  /** The two exact conditions, and what a success leaves. */
  predicate AloneContinues(t: Table, after: Table, user: Uuid, chatId: Uuid, requestId: Uuid, prompt: string,
                           askedAt: Instant, g: Generated, answeredAt: Instant, outcome: Outcome) {
    && ContinueVerdict(t, t, after, user, chatId, requestId, prompt, askedAt, g, answeredAt, outcome)
    && (outcome.ExchangeDone? <==>
        && IsOwner(t, chatId, user) && g.Answer? && StorableCitations(g.citations)
        && t[ChatKey(chatId)].chat.lastUpdatedAt <= askedAt <= t[ChatKey(chatId)].chat.lastUpdatedAt + 86_400_000_000
        && askedAt <= answeredAt && BothUnused(t, chatId, requestId, askedAt, answeredAt))
    && (outcome == Failed(OutOfOrder) <==>
        && IsOwner(t, chatId, user) && g.Answer? && WithinADay(t[ChatKey(chatId)].chat.lastUpdatedAt, askedAt)
        && (askedAt < t[ChatKey(chatId)].chat.lastUpdatedAt || answeredAt < askedAt))
  }

  lemma VerdictAlone(t: Table, after: Table, user: Uuid, chatId: Uuid, requestId: Uuid, prompt: string,
                     askedAt: Instant, g: Generated, answeredAt: Instant, outcome: Outcome)
    requires ContinueVerdict(t, t, after, user, chatId, requestId, prompt, askedAt, g, answeredAt, outcome)
    ensures AloneContinues(t, after, user, chatId, requestId, prompt, askedAt, g, answeredAt, outcome)
  {
    hide TurnPut;
  }

  /** Rows are only stored for chats that have a history. */
  lemma NoHistoryNoRows(w: World, c: Uuid)
    requires Consistent(w) && c !in w.logs
    ensures forall k | k in w.table :: k.chatId != c
  {
    forall k | k in w.table ensures k.chatId != c {
      assert Accounted(w, k);
    }
  }

  lemma OnlyIssuedHaveHistory(w: World)
    requires Consistent(w)
    ensures w.logs.Keys <= w.issued
  {
    forall c | c in w.logs ensures c in w.issued {
      assert GoodLogOf(w, c);
    }
  }

  /** While a start waits for its save, there is no row under its chat id. */
  lemma StartsAfresh(steps: seq<Step>, p: nat)
    requires p in Run(steps).processes && Run(steps).processes[p].StartReady?
    ensures forall k | k in Run(steps).world.table :: k.chatId != Run(steps).processes[p].chat.chatId
  {
    RunKeeps(steps);
    hide Run, Consistent;
    NoHistoryNoRows(Run(steps).world, Run(steps).processes[p].chat.chatId);
  }

  /** The verdict on a start that ends before its save. */
  lemma StartEndsEarly(t: Table, user: Uuid, requestId: Uuid, prompt: string, chatId: Uuid, askedAt: Instant,
                       g: Generated, answeredAt: Instant, failure: Failure)
    requires if g.NoAnswer? then failure == GenerationFailed
             else if IsBlank(g.sessionId) then failure == BadSession
             else answeredAt < askedAt && failure == OutOfOrder
    ensures StartVerdict(t, t, user, requestId, prompt, chatId, askedAt, g, answeredAt, Failed(failure))
  {
    hide IsBlank, OnlyWhiteSpace;
    if g.Answer? { BlankIsWhiteSpace(g.sessionId); }
  }

  /** The save of a start whose chat has no rows yet. */
  lemma SaveStartVerdict(w: World, q: Process, requestId: Uuid, prompt: string, askedAt: Instant, g: Generated,
                         answeredAt: Instant)
    requires q.StartReady? && g.Answer? && !OnlyWhiteSpace(g.sessionId) && askedAt <= answeredAt
    requires forall k | k in w.table :: k.chatId != q.chat.chatId
    requires q.question == Message(q.chat.chatId, requestId, User, prompt, askedAt, [])
    requires q.answer == Message(q.chat.chatId, requestId, Llm, g.text, answeredAt, g.citations)
    requires q.chat == Chat(q.chat.chatId, g.sessionId, if |prompt| <= 10 then prompt else prompt[..10] + "...", q.user,
                            answeredAt, answeredAt, 0)
    ensures var e := StartCommitted(w, q, false);
            && e.next.Finished?
            && StartVerdict(w.table, Perform(w, e.write).table, q.user, requestId, prompt, q.chat.chatId, askedAt, g,
                            answeredAt, e.next.outcome)
  {
    hide OnlyWhiteSpace;
    NoCitationsStorable();
  }

  /** What the answer makes of a start: its end, or a turn to be saved. */
  lemma AnswerStartVerdict(t: Table, q: Process, g: Generated, answeredAt: Instant, chatId: Uuid)
    requires q.StartAsked?
    ensures var r := StartGenerated(q, g, answeredAt, chatId).next;
            if r.Finished? then StartVerdict(t, t, q.user, q.requestId, q.prompt, chatId, q.askedAt, g, answeredAt,
                                             r.outcome)
            else
              && r.StartReady? && r.user == q.user && g.Answer? && !OnlyWhiteSpace(g.sessionId)
              && q.askedAt <= answeredAt
              && r.question == Message(chatId, q.requestId, User, q.prompt, q.askedAt, [])
              && r.answer == Message(chatId, q.requestId, Llm, g.text, answeredAt, g.citations)
              && r.chat == Chat(chatId, g.sessionId, if |q.prompt| <= 10 then q.prompt else q.prompt[..10] + "...",
                                q.user, answeredAt, answeredAt, 0)
  {
    hide TurnPut, IsBlank, OnlyWhiteSpace;
    if g.Answer? { BlankIsWhiteSpace(g.sessionId); }
  }

  /** The verdict on a start at its save, told by whether it failed. */
  lemma SaveStartDecides(saving: Table, after: Table, chat: Chat, requestId: Uuid, prompt: string, askedAt: Instant,
                         g: Generated, answeredAt: Instant, failed: bool)
    requires g.Answer? && !OnlyWhiteSpace(g.sessionId) && askedAt <= answeredAt
    requires forall k | k in saving :: k.chatId != chat.chatId
    requires chat == Chat(chat.chatId, g.sessionId, if |prompt| <= 10 then prompt else prompt[..10] + "...",
                          chat.userId, answeredAt, answeredAt, 0)
    requires var question := Message(chat.chatId, requestId, User, prompt, askedAt, []);
             var answer := Message(chat.chatId, requestId, Llm, g.text, answeredAt, g.citations);
             && (!failed <==>
                  StartAccepted(saving, chat, question, answer) && StorableMessage(question) && StorableMessage(answer))
             && after == if failed then saving else PutTurn(saving, chat, question, answer)
    ensures StartVerdict(saving, after, chat.userId, requestId, prompt, chat.chatId, askedAt, g, answeredAt,
                         if failed then Failed(SaveFailed) else StartDone(chat.chatId))
  {
    hide OnlyWhiteSpace;
    NoCitationsStorable();
  }

  /** A start that runs alone with a new chat id and meets no failure of the client. */
  lemma StartAlone(steps: seq<Step>, p: nat, user: Uuid, requestId: Uuid, prompt: string, chatId: Uuid,
                   askedAt: Instant, g: Generated, answeredAt: Instant)
    requires Own(p, steps) == [] && chatId !in Run(steps).world.issued
    ensures var after := steps + StartScript(p, StartNew(user, requestId, prompt), askedAt, g, answeredAt, chatId,
                                             false);
            && p in Run(after).processes && Run(after).processes[p].Finished?
            && StartVerdict(Run(steps).world.table, Run(after).world.table, user, requestId, prompt, chatId, askedAt, g,
                            answeredAt, Run(after).processes[p].outcome)
  {
    RunKeeps(steps);
    OnlyIssuedHaveHistory(Run(steps).world);
    NoHistoryNoRows(Run(steps).world, chatId);
    hide Run, StartVerdict, StartGenerated, StartCommitted, OnlyWhiteSpace, Consistent, Own;
    var request := StartNew(user, requestId, prompt);
    var s1 := steps + [Arrive(p, request)];
    var s2 := s1 + [Act(p, ReadClock(askedAt))];
    var s3 := s2 + [Act(p, Generate(g, answeredAt, chatId))];
    assert steps + StartScript(p, request, askedAt, g, answeredAt, chatId, false) == s3 + [Act(p, Commit(false))];
    Arrived(steps, p, request);
    StartAskedAt(s1, p, request, askedAt);
    var q := StartAsked(user, requestId, prompt, askedAt);
    StartAnswered(s2, p, q, g, answeredAt, chatId);
    AnswerStartVerdict(Run(steps).world.table, q, g, answeredAt, chatId);
    var q' := StartGenerated(q, g, answeredAt, chatId).next;
    if q'.Finished? {
      Rests(s3, p, q', Commit(false));
    } else {
      Acted(s3, p, q', Commit(false));
      SaveStartVerdict(Run(s3).world, q', requestId, prompt, askedAt, g, answeredAt);
    }
  }

  /** The verdict on a rename, told by whether the write was accepted. */
  lemma RenameDecides(before: Table, after: Table, user: Uuid, chatId: Uuid, title: string, accepted: bool)
    requires accepted <==> RenameAccepted(before, chatId, user)
    requires after == if accepted then PutTitle(before, chatId, title) else before
    ensures RenameVerdict(before, after, user, chatId, title, if accepted then RenameDone else Failed(ChatNotFound))
  {
  }

  lemma RenameByVerdict(w: World, q: Process)
    requires q.RenameNew?
    ensures var e := RenameCommitted(w, q, false);
            && e.next.Finished?
            && RenameVerdict(w.table, Perform(w, e.write).table, q.user, q.chatId, q.title, e.next.outcome)
  {
  }

  /** A rename that runs alone and meets no failure of the client. */
  lemma RenameAlone(steps: seq<Step>, p: nat, user: Uuid, chatId: Uuid, title: string)
    requires Own(p, steps) == []
    ensures var after := steps + [Arrive(p, RenameNew(user, chatId, title))] + [Act(p, Commit(false))];
            && p in Run(after).processes && Run(after).processes[p].Finished?
            && RenameVerdict(Run(steps).world.table, Run(after).world.table, user, chatId, title,
                             Run(after).processes[p].outcome)
  {
    hide Run, Own, RenameCommitted, RenameVerdict, Perform;
    var request := RenameNew(user, chatId, title);
    Arrived(steps, p, request);
    Acted(steps + [Arrive(p, request)], p, request, Commit(false));
    RenameByVerdict(Run(steps).world, request);
  }
}
