/** Runs that show what the service does not promise: a rename can be lost, a history can be listed out of order, and
    a delete that reports success can leave messages behind. Guarantees.CommitPutsBackTitle,
    Guarantees.ListingIsHistory and Leftovers.LeavesNothing say exactly when. */
module Witnesses {
  import opened Text
  import opened Uuids
  import opened Domain
  import opened Sorting
  import opened Store
  import opened History
  import opened World
  import opened Protocol
  import opened Guarantees

  const OWNER: Uuid := 7
  const FIRST := Chat(1, "s", "old", OWNER, 0, 0, 0)
  const Q1 := UserMessage(1, 2, "old", 0)
  const A1 := Message(1, 2, Llm, "a", 0, [])
  const Q2 := UserMessage(1, 1, "more", 0)
  const A2 := Message(1, 1, Llm, "b", 0, [])
  const SECOND := FIRST.(version := 1)

  /** A chat is started, and a second request has loaded it and has its answer. */
  const OPENING: seq<Step> := [
    Arrive(0, StartNew(OWNER, 2, "old")), Act(0, ReadClock(0)), Act(0, Generate(Answer("s", "a", []), 0, 1)),
      Act(0, Commit(false)),
    Arrive(1, ContinueNew(OWNER, 1, 1, "more")), Act(1, Load(false)), Act(1, ReadClock(0)),
      Act(1, Generate(Answer("s", "b", []), 0, 0))]

  const STARTED := map[ChatKey(1) := ChatRow(FIRST), KeyOf(Q1) := MessageRow(Q1), KeyOf(A1) := MessageRow(A1)]
  const START_DONE := Finished(OWNER, StartDone(1))
  const READY := ContinueReady(OWNER, FIRST, 1, SECOND, Q2, A2)

  lemma Follows(steps: seq<Step>, s: State, step: Step, t: State)
    requires Run(steps) == s && Apply(s, step) == t
    ensures Run(steps + [step]) == t
  {
    RunStep(steps, step);
  }

  lemma NothingRun()
    ensures Run([]) == INITIAL
  {
  }

  const ANSWERED: Process := StartReady(OWNER, FIRST, Q1, A1)

  lemma FirstIsCreated()
    ensures CreateChat(1, "s", TitleFromPrompt("old"), OWNER, 0) == Ok(FIRST)
  {
    assert !IsSpace("s"[0]);
  }

  const BEGINNING: World := World(STARTED, map[1 := [Started(FIRST, Q1, A1)]], {1}, {})

  lemma FirstIsSaved()
    ensures Perform(World(map[], map[], {1}, {}), PutStart(FIRST, Q1, A1)) == BEGINNING
  {
    var e := Started(FIRST, Q1, A1);
    assert [] + [e] == [e];
    assert PutTurn(map[], FIRST, Q1, A1) == STARTED;
  }

  const ASKED: State := State(INITIAL.world, map[0 := StartAsked(OWNER, 2, "old", 0)])

  lemma AfterAsk()
    ensures Run(OPENING[..2]) == ASKED
  {
    hide Run;
    assert OPENING[..0] == [];
    NothingRun();
    var s1 := State(INITIAL.world, map[0 := StartNew(OWNER, 2, "old")]);
    Follows([], INITIAL, OPENING[0], s1);
    assert OPENING[..1] == [] + [OPENING[0]];
    Follows(OPENING[..1], s1, OPENING[1], ASKED);
    assert OPENING[..2] == OPENING[..1] + [OPENING[1]];
  }

  /** The first request saves its chat. */
  lemma AfterStart()
    ensures Run(OPENING[..4]) == State(BEGINNING, map[0 := START_DONE])
  {
    hide Run;
    AfterAsk();
    var s3 := State(World(map[], map[], {1}, {}), map[0 := ANSWERED]);
    FirstIsCreated();
    hide CreateChat, TitleFromPrompt;
    Follows(OPENING[..2], ASKED, OPENING[2], s3);
    assert OPENING[..3] == OPENING[..2] + [OPENING[2]];
    FirstIsSaved();
    Follows(OPENING[..3], s3, OPENING[3], State(BEGINNING, map[0 := START_DONE]));
    assert OPENING[..4] == OPENING[..3] + [OPENING[3]];
  }

  /** The second request has loaded the chat. */
  lemma AfterLoad()
    ensures Run(OPENING[..6]) == State(BEGINNING, map[0 := START_DONE, 1 := ContinueLoaded(OWNER, 1, "more", FIRST, 1)])
  {
    hide Run;
    AfterStart();
    var s4 := State(BEGINNING, map[0 := START_DONE]);
    var s5 := State(BEGINNING, map[0 := START_DONE, 1 := ContinueNew(OWNER, 1, 1, "more")]);
    Follows(OPENING[..4], s4, OPENING[4], s5);
    assert OPENING[..5] == OPENING[..4] + [OPENING[4]];
    var s6 := State(BEGINNING, map[0 := START_DONE, 1 := ContinueLoaded(OWNER, 1, "more", FIRST, 1)]);
    Follows(OPENING[..5], s5, OPENING[5], s6);
    assert OPENING[..6] == OPENING[..5] + [OPENING[5]];
  }

  /** And it has its answer. */
  lemma AfterOpening()
    ensures Run(OPENING) == State(BEGINNING, map[0 := START_DONE, 1 := READY])
  {
    hide Run;
    AfterLoad();
    var s6 := State(BEGINNING, map[0 := START_DONE, 1 := ContinueLoaded(OWNER, 1, "more", FIRST, 1)]);
    var s7 := State(BEGINNING, map[0 := START_DONE, 1 := ContinueAsked(OWNER, 1, "more", FIRST, 1, 0)]);
    Follows(OPENING[..6], s6, OPENING[6], s7);
    assert OPENING[..7] == OPENING[..6] + [OPENING[6]];
    Follows(OPENING[..7], s7, OPENING[7], State(BEGINNING, map[0 := START_DONE, 1 := READY]));
    assert OPENING == OPENING[..7] + [OPENING[7]];
  }

  // ----- a rename is lost

  const RENAMED: World := World(
    STARTED[ChatKey(1) := ChatRow(FIRST.(title := "new"))], map[1 := [Started(FIRST, Q1, A1), History.Renamed("new")]],
      {1}, {})
  const RENAMING: seq<Step> := [Arrive(2, RenameNew(OWNER, 1, "new")), Act(2, Commit(false)), Act(1, Commit(false))]

  lemma AfterRename()
    ensures Run(OPENING + RENAMING[..2])
              == State(RENAMED, map[0 := START_DONE, 1 := READY, 2 := Finished(OWNER, RenameDone)])
  {
    hide Run;
    AfterOpening();
    var s := State(BEGINNING, map[0 := START_DONE, 1 := READY]);
    var s1 := State(BEGINNING, map[0 := START_DONE, 1 := READY, 2 := RenameNew(OWNER, 1, "new")]);
    Follows(OPENING, s, RENAMING[0], s1);
    assert [Started(FIRST, Q1, A1)] + [History.Renamed("new")] == [Started(FIRST, Q1, A1), History.Renamed("new")];
    assert Perform(BEGINNING, SetTitle(1, "new")) == RENAMED;
    Follows(OPENING + [RENAMING[0]], s1, RENAMING[1],
            State(RENAMED, map[0 := START_DONE, 1 := READY, 2 := Finished(OWNER, RenameDone)]));
    assert OPENING + RENAMING[..2] == (OPENING + [RENAMING[0]]) + [RENAMING[1]];
  }

  /** The rename succeeds, then the continuation succeeds, and the title is the one from before the rename. */
  lemma RenameLost()
    ensures var s := Run(OPENING + RENAMING);
            && 2 in s.processes && s.processes[2] == Finished(OWNER, RenameDone)
            && 1 in s.processes && s.processes[1] == Finished(OWNER, ExchangeDone(1, 0))
            && ChatKey(1) in s.world.table && s.world.table[ChatKey(1)] == ChatRow(SECOND) && SECOND.title == "old"
  {
    hide Run;
    AfterRename();
    assert OPENING + RENAMING == (OPENING + RENAMING[..2]) + [RENAMING[2]];
    RunStep(OPENING + RENAMING[..2], RENAMING[2]);
    assert ExchangeAccepted(RENAMED.table, SECOND, Q2, A2);
  }

  // ----- a history is listed out of order

  const CONTINUING := Act(1, Commit(false))

  /** What the second request's save does, whether the chat is being deleted or not. */
  lemma SecondIsSaved(deleting: set<Uuid>)
    ensures var w := BEGINNING.(deleting := deleting);
            && ContinueCommitted(w, 1, READY, false) == Effect(WON, PutExchange(1, 1, SECOND, Q2, A2))
            && Perform(w, PutExchange(1, 1, SECOND, Q2, A2)) == World(CONTINUED, map[1 := HISTORY], {1}, deleting)
  {
    assert ExchangeAccepted(STARTED, SECOND, Q2, A2);
    assert [Started(FIRST, Q1, A1)] + [Exchanged(1, 1, Q2, A2)] == HISTORY;
  }

  lemma HistoryOfTwo()
    ensures Run(OPENING + [CONTINUING]).world == World(CONTINUED, map[1 := HISTORY], {1}, {})
  {
    hide Run;
    AfterOpening();
    RunStep(OPENING, CONTINUING);
    hide ContinueCommitted, Perform;
    assert BEGINNING.(deleting := {}) == BEGINNING;
    SecondIsSaved({});
  }

  lemma TieIsDisordered()
    ensures !TiesOrdered(Turns(HISTORY))
  {
    var first, second := Turn(Q1, A1), Turn(Q2, A2);
    assert HISTORY[..1] == [Started(FIRST, Q1, A1)] && HISTORY[..1][..0] == [];
    assert Turns([]) == [];
    assert Turns(HISTORY[..1]) == [first];
    assert Turns(HISTORY) == [first] + [second];
    if TiesOrdered(Turns(HISTORY)) { FirstTwo(Turns(HISTORY)); }
  }

  lemma FirstTwo(turns: seq<Turn>)
    requires TiesOrdered(turns) && |turns| == 2
    ensures turns[0].llm.sentAt == turns[1].user.sentAt ==> turns[0].llm.requestId < turns[1].user.requestId
  {
    var i := 1;
    assert turns[i - 1] == turns[0];
  }

  /** All times are equal and the second request has the smaller id: the second turn is listed first. */
  lemma ListedOutOfOrder()
    ensures var w := Run(OPENING + [CONTINUING]).world;
            && 1 in w.logs && 1 !in w.deleting && !TiesOrdered(Turns(w.logs[1]))
            && ListMessages(w.table, 1) != KeysOf(MessagesOf(w.logs[1]))
  {
    HistoryOfTwo();
    TieIsDisordered();
    ListingIsHistory(OPENING + [CONTINUING], 1);
  }

  // ----- a delete leaves messages behind

  const DELETING: seq<Step> := [
    Arrive(2, DeleteNew(OWNER, 1)), Act(2, Load(false)), Act(2, Page(None, false)), Act(1, Commit(false)),
    Act(2, RemoveOne(ChatKey(1))), Act(2, RemoveOne(KeyOf(Q1))), Act(2, RemoveOne(KeyOf(A1))), Act(2, NextBatch)]

  const LISTED: set<Key> := {ChatKey(1), KeyOf(Q1), KeyOf(A1)}
  const CONTINUED := STARTED[ChatKey(1) := ChatRow(SECOND)][KeyOf(Q2) := MessageRow(Q2)][KeyOf(A2) := MessageRow(A2)]
  const HISTORY: Log := [Started(FIRST, Q1, A1), Exchanged(1, 1, Q2, A2)]
  const WON := Finished(OWNER, ExchangeDone(1, 0))

  function Removing(batch: set<Key>): Process {
    DeleteRemoving(OWNER, 1, 1, batch, [])
  }

  lemma ThreeRows()
    ensures PageKeys(STARTED, 1, None, None) == LISTED && 0 < |LISTED| <= BATCH
  {
    assert |LISTED| == 3;
  }

  /** Few enough keys make one batch. */
  lemma OneBatch(found: seq<Key>, keys: set<Key>)
    requires 0 < |found| <= BATCH && forall k :: k in found <==> k in keys
    ensures NextRemoving(OWNER, 1, 1, found) == Removing(keys)
  {
    hide KeyLess;
    var n := if |found| < BATCH then |found| else BATCH;
    assert found[..n] == found && found[n..] == [];
    assert Elements(found) == keys;
  }

  /** The one page of the query lists the three rows there are. */
  lemma AllListed()
    ensures DeletePage(BEGINNING.(deleting := {1}), DeleteQuerying(OWNER, 1, 1, None, []), None, false)
              == Effect(Removing(LISTED), Nothing)
  {
    hide KeyLess, NextRemoving;
    KeyOrderIsTotal();
    ThreeRows();
    InOrderIsOrdered(LISTED, KeyLess);
    assert [] + InOrder(LISTED, KeyLess) == InOrder(LISTED, KeyLess);
    OneBatch(InOrder(LISTED, KeyLess), LISTED);
  }

  lemma AfterBegin()
    ensures Run(OPENING + DELETING[..2]) ==
            State(BEGINNING.(deleting := {1}),
                  map[0 := START_DONE, 1 := READY, 2 := DeleteQuerying(OWNER, 1, 1, None, [])])
  {
    hide Run;
    AfterOpening();
    var s := State(BEGINNING, map[0 := START_DONE, 1 := READY]);
    var s1 := State(BEGINNING, map[0 := START_DONE, 1 := READY, 2 := DeleteNew(OWNER, 1)]);
    Follows(OPENING, s, DELETING[0], s1);
    var s2 := State(BEGINNING.(deleting := {1}),
                    map[0 := START_DONE, 1 := READY, 2 := DeleteQuerying(OWNER, 1, 1, None, [])]);
    Follows(OPENING + [DELETING[0]], s1, DELETING[1], s2);
    assert OPENING + DELETING[..2] == OPENING + [DELETING[0]] + [DELETING[1]];
  }

  lemma AfterQuery()
    ensures Run(OPENING + DELETING[..3])
              == State(BEGINNING.(deleting := {1}), map[0 := START_DONE, 1 := READY, 2 := Removing(LISTED)])
  {
    AfterBegin();
    AllListed();
    hide Run, DeletePage, Removing;
    assert OPENING + DELETING[..3] == (OPENING + DELETING[..2]) + [DELETING[2]];
    RunStep(OPENING + DELETING[..2], DELETING[2]);
  }

  lemma AfterCommit()
    ensures Run(OPENING + DELETING[..4])
              == State(World(CONTINUED, map[1 := HISTORY], {1}, {1}),
                       map[0 := START_DONE, 1 := WON, 2 := Removing(LISTED)])
  {
    hide Run;
    AfterQuery();
    assert OPENING + DELETING[..4] == (OPENING + DELETING[..3]) + [DELETING[3]];
    RunStep(OPENING + DELETING[..3], DELETING[3]);
    hide ContinueCommitted, Perform;
    SecondIsSaved({1});
  }

  /** One removal by the delete. */
  lemma Removal(steps: seq<Step>, w: World, batch: set<Key>, k: Key)
    requires Run(steps) == State(w, map[0 := START_DONE, 1 := WON, 2 := Removing(batch)]) && k in batch
    ensures Run(steps + [Act(2, RemoveOne(k))]) ==
            State(w.(table := w.table - {k}), map[0 := START_DONE, 1 := WON, 2 := Removing(batch - {k})])
  {
    RunStep(steps, Act(2, RemoveOne(k)));
  }

  lemma TwoRowsLeft()
    ensures Partition(CONTINUED - {ChatKey(1)} - {KeyOf(Q1)} - {KeyOf(A1)}, 1) == {KeyOf(Q2), KeyOf(A2)}
  {
  }

  lemma AfterRemovals()
    ensures var t := CONTINUED - {ChatKey(1)} - {KeyOf(Q1)} - {KeyOf(A1)};
            Run(OPENING + DELETING[..7])
              == State(World(t, map[1 := HISTORY], {1}, {1}), map[0 := START_DONE, 1 := WON, 2 := Removing({})])
  {
    AfterCommit();
    hide Run;
    var w := World(CONTINUED, map[1 := HISTORY], {1}, {1});
    var before := OPENING + DELETING[..4];
    Removal(before, w, LISTED, ChatKey(1));
    var w1 := w.(table := w.table - {ChatKey(1)});
    Removal(before + [DELETING[4]], w1, LISTED - {ChatKey(1)}, KeyOf(Q1));
    var w2 := w1.(table := w1.table - {KeyOf(Q1)});
    Removal(before + [DELETING[4]] + [DELETING[5]], w2, LISTED - {ChatKey(1)} - {KeyOf(Q1)}, KeyOf(A1));
    assert LISTED - {ChatKey(1)} - {KeyOf(Q1)} - {KeyOf(A1)} == {};
    assert OPENING + DELETING[..7] == before + [DELETING[4]] + [DELETING[5]] + [DELETING[6]];
  }

  /** The delete lists the rows, the continuation commits, the delete removes what it listed and succeeds:
      the chat is gone and the two messages of the continuation are still there. */
  lemma MessagesLeftBehind()
    ensures var s := Run(OPENING + DELETING);
            && 2 in s.processes && s.processes[2] == Finished(OWNER, DeleteDone(1, 1))
            && 1 in s.processes && s.processes[1] == Finished(OWNER, ExchangeDone(1, 0))
            && ChatKey(1) !in s.world.table && Partition(s.world.table, 1) == {KeyOf(Q2), KeyOf(A2)}
  {
    hide Run;
    AfterRemovals();
    TwoRowsLeft();
    assert OPENING + DELETING == (OPENING + DELETING[..7]) + [DELETING[7]];
    RunStep(OPENING + DELETING[..7], DELETING[7]);
  }
}
