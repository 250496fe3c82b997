/** The use cases that save turns and titles, as the program runs them: a sequence of effects with waits in between,
    during which any other requests may run. Clock readings and the generator's answer are parameters.
    Each is proved to be one process of the protocol: whatever it does is a run of the state machine. */
module UseCases {
  import opened Text
  import opened Time
  import opened Uuids
  import opened Citations
  import opened Domain
  import opened Store
  import opened History
  import opened World
  import opened Protocol
  import opened Guarantees
  import opened Schedules
  import opened Verdicts
  import opened Database
  import opened Representation
  import Repository

  /** Other requests run. Nothing is known afterwards but that the table is where some longer schedule
      leads in which process p took no further step, and that nobody else was given the ids in mine;
      with p alone, nothing happens. */
  method Await(client: ChatTable, ghost p: nat, ghost mine: set<Uuid>, ghost steps: seq<Step>,
               ghost alone: bool := false)
    returns (ghost later: seq<Step>)
    requires Represents(client.items, Run(steps).world.table)
    modifies client`items
    ensures Represents(client.items, Run(later).world.table) && steps <= later && (alone ==> later == steps)
    ensures Own(p, later) == Own(p, steps)
    ensures mine !! Run(steps).world.issued ==> mine !! Run(later).world.issued
    ensures p in Run(later).processes <==> p in Run(steps).processes
    ensures p in Run(steps).processes ==> Run(later).processes[p] == Run(steps).processes[p]
  {
    later := steps;
  }

  /** Other requests run while a request that writes nothing waits. */
  method Wait(client: ChatTable, ghost steps: seq<Step>) returns (ghost later: seq<Step>)
    requires Represents(client.items, Run(steps).world.table)
    modifies client`items
    ensures Represents(client.items, Run(later).world.table) && steps <= later
  {
    later := steps;
  }

  datatype Output = Output(chatId: Uuid, answer: string, citations: seq<Citation>, title: string,
                           lastUpdatedAt: Instant)

  /** What the world shows when a caller was told that a turn is saved: the row and the last event are those of that
      turn, both its messages are stored under their own keys, and the output repeats the row. */
  ghost predicate Saved(w: World, out: Output, user: Uuid, question: Message, answer: Message) {
    && ChatKey(out.chatId) in w.table && w.table[ChatKey(out.chatId)].ChatRow?
    && var row := w.table[ChatKey(out.chatId)].chat;
    && out == Output(row.chatId, answer.content, answer.citations, row.title, row.lastUpdatedAt)
    && row.userId == user && row.lastUpdatedAt == answer.sentAt
    && Ends(w, out.chatId, question, answer)
    && StoredMessage(w.table, question) && StoredMessage(w.table, answer)
  }

  lemma ShowsTurn(w: World, chat: Chat, question: Message, answer: Message)
    requires ChatKey(chat.chatId) in w.table && w.table[ChatKey(chat.chatId)] == ChatRow(chat)
    requires Ends(w, chat.chatId, question, answer) && chat.lastUpdatedAt == answer.sentAt
    requires StoredMessage(w.table, question) && StoredMessage(w.table, answer)
    ensures Saved(w, Output(chat.chatId, answer.content, answer.citations, chat.title, chat.lastUpdatedAt), chat.userId,
                  question, answer)
  {
    hide Ends, StoredMessage;
  }

  class ContinueChat {
    const repository: Repository.ChatRepository

    constructor (repository: Repository.ChatRepository)
      ensures this.repository == repository
    {
      this.repository := repository;
    }

    /** Loads the chat and checks its owner; a missing chat and another user's chat are told apart by nobody. */
    method GetOwnedChat(user: Uuid, chatId: Uuid, ghost p: nat, ghost steps: seq<Step>)
      returns (r: Result<ChatObject, Failure>, ghost after: seq<Step>)
      requires Represents(repository.client.items, Run(steps).world.table)
      requires p in Run(steps).processes && Run(steps).processes[p].ContinueNew?
      requires Run(steps).processes[p].user == user && Run(steps).processes[p].chatId == chatId
      modifies repository.client`faults
      ensures Run(after).world.table == Run(steps).world.table && p in Run(after).processes
      ensures after == steps + [Act(p, Load(r == Err(LoadFailed)))]
      ensures Own(p, after) == Own(p, steps) + [Act(p, Load(r == Err(LoadFailed)))]
      ensures var t := Run(steps).world.table;
              && (r == Err(ChatNotFound) ==> !IsOwner(t, chatId, user))
              && (r.Ok? ==> IsOwner(t, chatId, user) && r.value.View() == t[ChatKey(chatId)].chat)
      ensures repository.client.faults == old(repository.client.faults) + (if r == Err(LoadFailed) then 1 else 0)
      ensures r.Err? ==> r.error == LoadFailed || r.error == ChatNotFound
      ensures r.Err? ==> Run(after).processes[p] == Finished(user, Failed(r.error))
      ensures r.Ok? ==>
                fresh(r.value) && r.value.View().userId == user &&
                  Loaded(Run(after).processes[p], Run(steps).processes[p], r.value.View())
    {
      hide Represents, Run;
      var loaded := repository.GetChat(chatId, Run(steps).world.table);
      Acted(steps, p, Run(steps).processes[p], Load(loaded == Err(Repository.LoadError)));
      after := steps + [Act(p, Load(loaded == Err(Repository.LoadError)))];
      if loaded.Err? {
        r := Err(if loaded.error == Repository.LoadError then LoadFailed else ChatNotFound);
        return;
      }
      var chat := new ChatObject(loaded.value);
      var owner := chat.EnsureOwnedBy(user);
      if owner.Some? {
        r := Err(ChatNotFound);
        return;
      }
      r := Ok(chat);
    }

    /** Makes the turn of the question and the generated answer, and advances the chat by it. */
    method RecordAnswer(chat: ChatObject, requestId: Uuid, prompt: string, askedAt: Instant, generated: Generated,
                        answeredAt: Instant,
                        ghost p: nat, ghost steps: seq<Step>)
      returns (r: Result<Turn, Failure>, ghost after: seq<Step>)
      requires p in Run(steps).processes && AskedOn(Run(steps).processes[p], chat.View(), requestId, prompt, askedAt)
      modifies chat
      ensures Run(after).world.table == Run(steps).world.table && p in Run(after).processes
      ensures after == steps + [Act(p, Generate(generated, answeredAt, 0))]
      ensures Own(p, after) == Own(p, steps) + [Act(p, Generate(generated, answeredAt, 0))]
      ensures r.Err? ==> Run(after).processes[p] == Finished(Run(steps).processes[p].user, Failed(r.error))
      ensures r == Err(GenerationFailed) <==> generated.NoAnswer?
      ensures r.Ok? <==> generated.Answer? && old(chat.lastUpdatedAt) <= askedAt <= answeredAt
      ensures r.Err? ==> r.error == GenerationFailed || r.error == OutOfOrder
      ensures r.Ok? ==> r.value.user == Message(chat.chatId, requestId, User, prompt, askedAt, [])
                        && r.value.llm
                           == Message(chat.chatId, requestId, Llm, generated.text, answeredAt, generated.citations)
      ensures r.Ok? ==> chat.lastUpdatedAt == answeredAt && chat.version == old(chat.version) + 1
      ensures r.Ok? ==> Readied(Run(after).processes[p], chat.View(), r.value.user, r.value.llm)
                        && Run(after).processes[p].user == Run(steps).processes[p].user
                        && Run(after).processes[p].base == Run(steps).processes[p].base
    {
      hide Run, React, Perform, Apply, Own;
      Answered(steps, p, Run(steps).processes[p], generated, answeredAt);
      after := steps + [Act(p, Generate(generated, answeredAt, 0))];
      if generated.NoAnswer? {
        return Err(GenerationFailed), after;
      }
      var question := UserMessage(chat.chatId, requestId, prompt, askedAt);
      var answer := Message(chat.chatId, requestId, Llm, generated.text, answeredAt, generated.citations);
      var rejected := chat.RecordTurn(question, answer);
      if rejected.Some? {
        return Err(OutOfOrder), after;
      }
      r := Ok(Turn(question, answer));
    }

    /** Commits the advanced chat and its turn. */
    method Save(chat: ChatObject, question: Message, answer: Message, ghost p: nat, ghost steps: seq<Step>)
      returns (failure: Option<Failure>, ghost after: seq<Step>)
      requires Represents(repository.client.items, Run(steps).world.table)
      requires p in Run(steps).processes && Readied(Run(steps).processes[p], chat.View(), question, answer)
      requires question.sender == User && answer.sender == Llm && question.citations == []
      modifies repository.client
      ensures Represents(repository.client.items, Run(after).world.table) && p in Run(after).processes
      ensures after == steps + [Act(p, Commit(failure == Some(SaveFailed) && StorableMessage(answer)))]
      ensures var t := Run(steps).world.table;
              && (failure == None ==> ExchangeAccepted(t, chat.View(), question, answer) && StorableMessage(answer))
              && (failure == Some(Conflict) ==>
                   !ExchangeAccepted(t, chat.View(), question, answer) && StorableMessage(answer))
              && Run(after).world.table == if failure == None then PutTurn(t, chat.View(), question, answer) else t
      ensures var q := Run(steps).processes[p];
              Run(after).processes[p]
                == Finished(q.user, if failure.Some? then Failed(failure.value)
                  else ExchangeDone(q.chat.chatId, q.base.version))
      ensures var fault := failure == Some(SaveFailed) && StorableMessage(answer);
              && Own(p, after) == Own(p, steps) + [Act(p, Commit(fault))]
              && repository.client.faults == old(repository.client.faults) + (if fault then 1 else 0)
      ensures failure.Some? ==> failure.value == Conflict || failure.value == SaveFailed
      ensures failure == None ==> var w := Run(after).world;
              && ChatKey(chat.chatId) in w.table && w.table[ChatKey(chat.chatId)] == ChatRow(chat.View())
              && Ends(w, chat.chatId, question, answer)
              && StoredMessage(w.table, question) && StoredMessage(w.table, answer)
    {
      hide Represents, Run, ExchangeAccepted, React, Perform, Own, Ends, StoredMessage;
      BothStored(Run(steps).world.table, chat.View(), question, answer);
      var current := Chat(chat.chatId, chat.sessionId, chat.title, chat.userId, chat.createdAt, chat.lastUpdatedAt,
                          chat.version);
      var failed := repository.SaveExchange(current, question, answer, Run(steps).world.table);
      NoCitationsStorable();
      ghost var fault := failed == Some(Repository.SaveError) && StorableMessage(answer);
      Tried(steps, p, Run(steps).processes[p], fault);
      after := steps + [Act(p, Commit(fault))];
      if failed.Some? {
        failure := Some(if failed.value == Repository.ConflictError then Conflict else SaveFailed);
      } else {
        failure := None;
      }
    }

    /** Reads the clock and checks the limit on what was loaded. */
    method Ask(chat: ChatObject, askedAt: Instant, ghost p: nat, ghost steps: seq<Step>)
      returns (failure: Option<Failure>, ghost after: seq<Step>)
      requires p in Run(steps).processes && Run(steps).processes[p].ContinueLoaded?
      requires Run(steps).processes[p].base == chat.View()
      ensures Run(after).world.table == Run(steps).world.table && p in Run(after).processes
      ensures after == steps + [Act(p, ReadClock(askedAt))]
      ensures Own(p, after) == Own(p, steps) + [Act(p, ReadClock(askedAt))]
      ensures failure == if WithinADay(chat.lastUpdatedAt, askedAt) then None else Some(Expired)
      ensures var q := Run(steps).processes[p];
              Run(after).processes[p] ==
                if failure == None then ContinueAsked(q.user, q.requestId, q.prompt, q.base, q.loadedAt, askedAt)
                else Finished(q.user, Failed(Expired))
    {
      hide Run, React, Perform, Apply, Own;
      Asked(steps, p, Run(steps).processes[p], askedAt);
      after := steps + [Act(p, ReadClock(askedAt))];
      var expired := chat.EnsureContinuableAt(askedAt);
      failure := if expired.Some? then Some(Expired) else None;
    }

    /** The question and the answer on a loaded chat, up to the save. */
    method Exchange(chat: ChatObject, requestId: Uuid, prompt: string, askedAt: Instant, generated: Generated,
                    answeredAt: Instant,
                    ghost p: nat, ghost steps: seq<Step>, ghost alone: bool := false)
      returns (r: Result<Output, Failure>, ghost atSave: seq<Step>, ghost after: seq<Step>)
      requires Represents(repository.client.items, Run(steps).world.table)
      requires p in Run(steps).processes && LoadedFor(Run(steps).processes[p], requestId, prompt, chat.View())
      modifies repository.client, chat
      ensures Represents(repository.client.items, Run(after).world.table) && steps <= atSave <= after
      ensures p in Run(after).processes && Run(after).processes[p].Finished?
      ensures Run(after).processes[p].user == Run(steps).processes[p].user
      ensures repository.client.faults == old(repository.client.faults) ==>
                ExchangeVerdict(old(chat.View()), Run(atSave).world.table, Run(after).world.table, requestId, prompt,
                                askedAt, generated, answeredAt, Run(after).processes[p].outcome)
      ensures Since(p, alone, steps, after) && (alone ==> Run(atSave).world.table == Run(steps).world.table)
      ensures r.Err? ==>
                Run(after).processes[p].outcome == Failed(r.error) && r.error != LoadFailed && r.error != DeleteFailed
      ensures var fault := r == Err(SaveFailed) && CanBeStored(generated);
              && DidPart(p, steps, after, ExchangeScript(p, askedAt, generated, answeredAt, fault))
              && repository.client.faults == old(repository.client.faults) + (if fault then 1 else 0)
      ensures r.Ok? ==>
                Run(after).processes[p].outcome.ExchangeDone? &&
                  Run(after).processes[p].outcome.chatId == r.value.chatId
      ensures r.Ok? ==> generated.Answer?
      ensures r.Ok? ==>
                Saved(Run(after).world, r.value, chat.userId,
                      Message(r.value.chatId, requestId, User, prompt, askedAt, []),
                      Message(r.value.chatId, requestId, Llm, generated.text, answeredAt, generated.citations))
    {
      hide Represents, Run, Own, ExchangeScript, ContinuableAt, RecordExchange, Ends, ExchangeAccepted, PutTurn;
      hide ExchangeVerdict, StoredMessage, Saved, StorableCitations, OnlyBy, DidPart;
      ghost var loaded := chat.View();
      var failure;
      atSave := steps;
      failure, after := Ask(chat, askedAt, p, steps);
      SinceStart(p, alone, steps);
      SinceActed(p, alone, steps, steps, ReadClock(askedAt));
      if failure.Some? {
        ExchangeParts(p, steps, after, askedAt, generated, answeredAt, false);
        EndsEarly(loaded, Run(steps).world.table, requestId, prompt, askedAt, generated, answeredAt, Expired);
        return Err(failure.value), atSave, after;
      }

      after := Await(repository.client, p, {}, after, alone);
      var turn;
      atSave := after;
      turn, after := RecordAnswer(chat, requestId, prompt, askedAt, generated, answeredAt, p, after);
      SinceActed(p, alone, steps, atSave, Generate(generated, answeredAt, 0));
      if turn.Err? {
        ExchangeParts(p, steps, after, askedAt, generated, answeredAt, false);
        EndsEarly(loaded, Run(after).world.table, requestId, prompt, askedAt, generated, answeredAt, turn.error);
        return Err(turn.error), atSave, after;
      }

      after := Await(repository.client, p, {}, after, alone);
      atSave := after;
      failure, after := Save(chat, turn.value.user, turn.value.llm, p, after);
      SinceActed(p, alone, steps, atSave, after[|atSave|].action);
      if repository.client.faults == old(repository.client.faults) {
        SaveDecides(loaded, Run(atSave).world.table, Run(after).world.table, requestId, prompt, askedAt, generated,
                    answeredAt, failure);
      }
      ExchangeParts(p, steps, after, askedAt, generated, answeredAt,
                    failure == Some(SaveFailed) && CanBeStored(generated));
      if failure.Some? {
        return Err(failure.value), atSave, after;
      }
      r := Ok(Output(chat.chatId, generated.text, generated.citations, chat.title, chat.lastUpdatedAt));
      ShowsTurn(Run(after).world, chat.View(), turn.value.user, turn.value.llm);
    }

    /** Without a failure of the client, what it answers and leaves is decided by the verdict on the tables at its load
        and just before its last effect; alone, both are the table it began with. */
    method Execute(user: Uuid, chatId: Uuid, requestId: Uuid, prompt: string,
                   askedAt: Instant, generated: Generated, answeredAt: Instant,
                   ghost p: nat, ghost steps: seq<Step>, ghost alone: bool := false)
      returns (r: Result<Output, Failure>, ghost atLoad: seq<Step>, ghost atSave: seq<Step>, ghost after: seq<Step>)
      requires Represents(repository.client.items, Run(steps).world.table) && Own(p, steps) == []
      modifies repository.client
      ensures Represents(repository.client.items, Run(after).world.table) && steps <= atLoad <= atSave <= after
      ensures p in Run(after).processes && Run(after).processes[p].Finished? && Run(after).processes[p].user == user
      ensures repository.client.faults == old(repository.client.faults) ==>
                ContinueVerdict(Run(atLoad).world.table, Run(atSave).world.table, Run(after).world.table, user, chatId,
                                requestId, prompt, askedAt, generated, answeredAt, Run(after).processes[p].outcome)
      ensures alone ==>
                RunsAlone(p, steps, after) &&
                  Run(atLoad).world.table == Run(atSave).world.table == Run(steps).world.table
      ensures r.Err? ==> Run(after).processes[p].outcome == Failed(r.error)
      ensures r.Err? ==> r.error != DeleteFailed && WroteNothing(p, after)
      ensures var loadFault, saveFault := r == Err(LoadFailed), r == Err(SaveFailed) && CanBeStored(generated);
              && Own(p, after) <= ContinueScript(p, ContinueNew(user, chatId, requestId, prompt), askedAt, generated,
                                                 answeredAt,
                                                 loadFault, saveFault)
              && repository.client.faults == old(repository.client.faults) + (if loadFault || saveFault then 1 else 0)
      ensures r.Ok? ==>
                Run(after).processes[p].outcome.ExchangeDone? &&
                  Run(after).processes[p].outcome.chatId == r.value.chatId
      ensures r.Ok? ==> generated.Answer?
      ensures r.Ok? ==>
                Saved(Run(after).world, r.value, user, Message(r.value.chatId, requestId, User, prompt, askedAt, []),
                      Message(r.value.chatId, requestId, Llm, generated.text, answeredAt, generated.citations))
    {
      hide Represents, Run, Own, ExchangeScript, Saved, WroteNothing, NeverRemoved, CanBeStored, ExchangeVerdict;
      ghost var request := ContinueNew(user, chatId, requestId, prompt);
      Arrived(steps, p, request);
      after := steps + [Arrive(p, request)];
      after := Await(repository.client, p, {}, after, alone);
      atLoad, atSave := after, after;
      var loaded;
      loaded, after := GetOwnedChat(user, chatId, p, after);
      if loaded.Err? {
        RemovalsFailAsDeletes(after, p);
        FailuresWriteNothing(after, p);
        return Err(loaded.error), atLoad, atSave, after;
      }
      RowIsOfChat(atLoad, chatId);
      r, atSave, after := Exchange(loaded.value, requestId, prompt, askedAt, generated, answeredAt, p, after, alone);
      if r.Err? {
        RemovalsFailAsDeletes(after, p);
        FailuresWriteNothing(after, p);
      }
    }
  }

  lemma SavesAfresh(steps: seq<Step>, p: nat, chat: Chat, question: Message, answer: Message)
    requires p in Run(steps).processes && StartReadied(Run(steps).processes[p], chat, question, answer)
    ensures forall k | k in Run(steps).world.table :: k.chatId != chat.chatId
  {
    hide Run;
    StartsAfresh(steps, p);
  }

  class StartChat {
    const repository: Repository.ChatRepository

    constructor (repository: Repository.ChatRepository)
      ensures this.repository == repository
    {
      this.repository := repository;
    }

    /** The chat that the answer starts, and the check of its first turn. */
    method Create(user: Uuid, requestId: Uuid, prompt: string, chatId: Uuid, askedAt: Instant, generated: Generated,
                  answeredAt: Instant, ghost p: nat, ghost steps: seq<Step>)
      returns (r: Result<Chat, Failure>, ghost after: seq<Step>)
      requires At(steps, p, StartAsked(user, requestId, prompt, askedAt)) && chatId !in Run(steps).world.issued
      ensures Run(after).world.table == Run(steps).world.table && p in Run(after).processes
      ensures after == steps + [Act(p, Generate(generated, answeredAt, chatId))]
      ensures Own(p, after) == Own(p, steps) + [Act(p, Generate(generated, answeredAt, chatId))]
      ensures r.Err? ==>
                && At(after, p, Finished(user, Failed(r.error))) && r.error != SaveFailed
                && StartVerdict(Run(steps).world.table, Run(steps).world.table, user, requestId, prompt, chatId,
                                askedAt, generated, answeredAt, Failed(r.error))
      ensures r.Ok? ==>
                && generated.Answer? && !OnlyWhiteSpace(generated.sessionId) && askedAt <= answeredAt
                && r.value == Chat(chatId, generated.sessionId,
                                   if |prompt| <= 10 then prompt else prompt[..10] + "...", user, answeredAt,
                                   answeredAt, 0)
                && Run(after).processes[p].user == user
                && StartReadied(Run(after).processes[p], r.value,
                                Message(chatId, requestId, User, prompt, askedAt, []),
                                Message(chatId, requestId, Llm, generated.text, answeredAt, generated.citations))
    {
      hide Run, React, Perform, Own, OnlyWhiteSpace, IsBlank, StartVerdict;
      StartAnswered(steps, p, Run(steps).processes[p], generated, answeredAt, chatId);
      after := steps + [Act(p, Generate(generated, answeredAt, chatId))];
      ghost var t := Run(steps).world.table;
      if generated.NoAnswer? {
        StartEndsEarly(t, user, requestId, prompt, chatId, askedAt, generated, answeredAt, GenerationFailed);
        return Err(GenerationFailed), after;
      }
      BlankIsWhiteSpace(generated.sessionId);
      var created := CreateChat(chatId, generated.sessionId, TitleFromPrompt(prompt), user, answeredAt);
      if created.Err? {
        StartEndsEarly(t, user, requestId, prompt, chatId, askedAt, generated, answeredAt, BadSession);
        return Err(BadSession), after;
      }
      var chat := created.value;
      var question := UserMessage(chatId, requestId, prompt, askedAt);
      var answer := Message(chatId, requestId, Llm, generated.text, answeredAt, generated.citations);
      if StartedTurnError(chat, question, answer).Some? {
        StartEndsEarly(t, user, requestId, prompt, chatId, askedAt, generated, answeredAt, OutOfOrder);
        return Err(OutOfOrder), after;
      }
      r := Ok(chat);
    }

    /** Saves the new chat and its first turn. */
    method Save(chat: Chat, question: Message, answer: Message, ghost p: nat, ghost steps: seq<Step>)
      returns (failure: Option<Failure>, ghost after: seq<Step>)
      requires Represents(repository.client.items, Run(steps).world.table)
      requires p in Run(steps).processes && StartReadied(Run(steps).processes[p], chat, question, answer)
      modifies repository.client
      ensures Represents(repository.client.items, Run(after).world.table)
      ensures after == steps + [Act(p, Commit(repository.client.faults > old(repository.client.faults)))]
      ensures var t := Run(steps).world.table;
              && (repository.client.faults == old(repository.client.faults) ==>
                   (failure == None <==>
                      StartAccepted(t, chat, question, answer) && StorableMessage(question) && StorableMessage(answer)))
              && Run(after).world.table == if failure == None then PutTurn(t, chat, question, answer) else t
      ensures At(after, p,
                 Finished(Run(steps).processes[p].user, if failure.Some? then Failed(SaveFailed)
                   else StartDone(chat.chatId)))
      ensures failure.Some? ==> failure == Some(SaveFailed)
      ensures Own(p, after)
                == Own(p, steps) + [Act(p, Commit(repository.client.faults > old(repository.client.faults)))]
      ensures repository.client.faults >= old(repository.client.faults)
      ensures repository.client.faults > old(repository.client.faults) ==> failure == Some(SaveFailed)
      ensures failure == None ==> var w := Run(after).world;
              && ChatKey(chat.chatId) in w.table && w.table[ChatKey(chat.chatId)] == ChatRow(chat)
              && Ends(w, chat.chatId, question, answer)
              && StoredMessage(w.table, question) && StoredMessage(w.table, answer)
    {
      hide Represents, Run, StoredMessage, StartAccepted;
      if StartAccepted(Run(steps).world.table, chat, question, answer) {
        StartStored(Run(steps).world.table, chat, question, answer);
      }
      var failed := repository.SaveStartedChat(chat, question, answer, Run(steps).world.table);
      ghost var fault := repository.client.faults > old(repository.client.faults);
      Acted(steps, p, Run(steps).processes[p], Commit(fault));
      after := steps + [Act(p, Commit(fault))];
      failure := if failed.Some? then Some(SaveFailed) else None;
    }

    /** chatId is the id generated for this request; that generated ids are fresh is an assumption. */
    method Execute(user: Uuid, requestId: Uuid, prompt: string, chatId: Uuid,
                   askedAt: Instant, generated: Generated, answeredAt: Instant,
                   ghost p: nat, ghost steps: seq<Step>, ghost alone: bool := false)
      returns (r: Result<Output, Failure>, ghost atSave: seq<Step>, ghost after: seq<Step>)
      requires Represents(repository.client.items, Run(steps).world.table)
      requires Own(p, steps) == [] && chatId !in Run(steps).world.issued
      modifies repository.client
      ensures Represents(repository.client.items, Run(after).world.table) && steps <= atSave <= after
      ensures p in Run(after).processes && Run(after).processes[p].Finished? && Run(after).processes[p].user == user
      ensures repository.client.faults == old(repository.client.faults) ==>
                StartVerdict(Run(atSave).world.table, Run(after).world.table, user, requestId, prompt, chatId, askedAt,
                             generated, answeredAt, Run(after).processes[p].outcome)
      ensures alone ==> RunsAlone(p, steps, after) && Run(atSave).world.table == Run(steps).world.table
      ensures r.Err? ==> Run(after).processes[p].outcome == Failed(r.error)
      ensures Own(p, after) <= StartScript(p, StartNew(user, requestId, prompt), askedAt, generated, answeredAt, chatId,
                                           repository.client.faults > old(repository.client.faults))
      ensures repository.client.faults >= old(repository.client.faults)
      ensures repository.client.faults > old(repository.client.faults) ==> r == Err(SaveFailed)
      ensures r.Ok? ==> Run(after).processes[p].outcome == StartDone(chatId) && r.value.chatId == chatId
      ensures r.Ok? ==> generated.Answer?
      ensures r.Ok? ==>
                Saved(Run(after).world, r.value, user, Message(chatId, requestId, User, prompt, askedAt, []),
                      Message(chatId, requestId, Llm, generated.text, answeredAt, generated.citations))
    {
      hide Represents, Run, StartAccepted, Own, StartScript, React, Perform, PutTurn, OnlyWhiteSpace, IsBlank;
      hide StartVerdict, StoredMessage, Saved, StorableCitations, Ends, StorableMessage, RunsAlone, StartReadied, Apply;
      AloneArrived(p, steps, StartNew(user, requestId, prompt));
      Arrived(steps, p, StartNew(user, requestId, prompt));
      StartParts(p, StartNew(user, requestId, prompt), askedAt, generated, answeredAt, chatId, false);
      StartParts(p, StartNew(user, requestId, prompt), askedAt, generated, answeredAt, chatId, true);
      after := steps + [Arrive(p, StartNew(user, requestId, prompt))];
      StartAskedAt(after, p, Run(after).processes[p], askedAt);
      AloneActed(p, alone, steps, after, ReadClock(askedAt));
      after := after + [Act(p, ReadClock(askedAt))];
      after := Await(repository.client, p, {chatId}, after, alone);

      atSave := after;
      var created;
      created, after := Create(user, requestId, prompt, chatId, askedAt, generated, answeredAt, p, after);
      AloneActed(p, alone, steps, atSave, Generate(generated, answeredAt, chatId));
      if created.Err? {
        return Err(created.error), atSave, after;
      }
      var chat := created.value;
      var question := UserMessage(chatId, requestId, prompt, askedAt);
      var answer := Message(chatId, requestId, Llm, generated.text, answeredAt, generated.citations);

      after := Await(repository.client, p, {}, after, alone);
      atSave := after;
      SavesAfresh(atSave, p, chat, question, answer);
      var failure;
      failure, after := Save(chat, question, answer, p, after);
      AloneActed(p, alone, steps, atSave, after[|atSave|].action);
      if repository.client.faults == old(repository.client.faults) {
        SaveStartDecides(Run(atSave).world.table, Run(after).world.table, chat, requestId, prompt, askedAt, generated,
                         answeredAt, failure.Some?);
      }
      if failure.Some? {
        return Err(failure.value), atSave, after;
      }
      r := Ok(Output(chat.chatId, generated.text, generated.citations, chat.title, chat.lastUpdatedAt));
      ShowsTurn(Run(after).world, chat, question, answer);
    }
  }

  class RenameChat {
    const repository: Repository.ChatRepository

    constructor (repository: Repository.ChatRepository)
      ensures this.repository == repository
    {
      this.repository := repository;
    }

    method Execute(user: Uuid, chatId: Uuid, title: string, ghost p: nat, ghost steps: seq<Step>,
                   ghost alone: bool := false)
      returns (failure: Option<Failure>, ghost before: seq<Step>, ghost after: seq<Step>)
      requires Represents(repository.client.items, Run(steps).world.table) && Own(p, steps) == []
      modifies repository.client
      ensures Represents(repository.client.items, Run(after).world.table) && steps <= before <= after
      ensures At(after, p, Finished(user, if failure.Some? then Failed(failure.value) else RenameDone))
      ensures Own(p, after) == [Arrive(p, RenameNew(user, chatId, title)), Act(p, Commit(failure == Some(TitleFailed)))]
      ensures repository.client.faults
                == old(repository.client.faults) + (if failure == Some(TitleFailed) then 1 else 0)
      ensures failure != Some(TitleFailed) ==>
                RenameVerdict(Run(before).world.table, Run(after).world.table, user, chatId, title,
                              if failure.Some? then Failed(failure.value) else RenameDone)
      ensures failure == Some(TitleFailed) ==> Run(after).world.table == Run(before).world.table
      ensures alone ==> RunsAlone(p, steps, after) && Run(before).world.table == Run(steps).world.table
    {
      hide Represents, Run, Apply, React, Perform, Own, RenameAccepted, PutTitle, RenameVerdict;
      Arrived(steps, p, RenameNew(user, chatId, title));
      after := steps + [Arrive(p, RenameNew(user, chatId, title))];
      after := Await(repository.client, p, {}, after, alone);
      before := after;
      ghost var t := Run(after).world.table;
      var failed := repository.UpdateTitle(chatId, user, title, t);
      Retitled(after, p, RenameNew(user, chatId, title), failed == Some(Repository.TitleError));
      after := after + [Act(p, Commit(failed == Some(Repository.TitleError)))];
      failure := match failed
                 case None => None
                 case Some(error) => Some(if error == Repository.TitleError then TitleFailed else ChatNotFound);
      if failure != Some(TitleFailed) {
        RenameDecides(t, Run(after).world.table, user, chatId, title, failure == None);
      }
    }
  }

  predicate Loaded(q: Process, asked: Process, chat: Chat) {
    && q.ContinueLoaded? && asked.ContinueNew?
    && q.user == asked.user && q.requestId == asked.requestId && q.prompt == asked.prompt && q.base == chat
  }

  /** The generator's answer can be written to the table. */
  predicate CanBeStored(generated: Generated) {
    generated.Answer? && StorableCitations(generated.citations)
  }

  predicate LoadedFor(q: Process, requestId: Uuid, prompt: string, chat: Chat) {
    q.ContinueLoaded? && q.requestId == requestId && q.prompt == prompt && q.base == chat
  }

  predicate AskedOn(q: Process, chat: Chat, requestId: Uuid, prompt: string, askedAt: Instant) {
    q.ContinueAsked? && q.base == chat && q.requestId == requestId && q.prompt == prompt && q.askedAt == askedAt
  }

  predicate StartReadied(q: Process, chat: Chat, question: Message, answer: Message) {
    q.StartReady? && q.chat == chat && q.question == question && q.answer == answer
  }

  predicate Readied(q: Process, chat: Chat, question: Message, answer: Message) {
    q.ContinueReady? && q.chat == chat && q.question == question && q.answer == answer
  }
}
