/** What the chat service guarantees over every run: every schedule, every clock, every failure. */
module Guarantees {
  import opened Uuids
  import opened Domain
  import opened Sorting
  import opened Store
  import opened History
  import opened World
  import opened Protocol
  import opened Schedules

  // ----- time

  /** The committed turns of a chat form a chain, even when clocks run backwards: each question is no
      earlier than the previous answer, at most 24 hours after it, and no later than its own answer. */
  lemma TurnsFormChain(steps: seq<Step>, c: Uuid)
    requires c in Run(steps).world.logs
    ensures var turns := Turns(Run(steps).world.logs[c]);
            turns != [] && Chain(turns) && Paired(turns, c)
  {
    RunKeeps(steps);
    assert GoodLogOf(Run(steps).world, c);
    GoodLogsChain(Run(steps).world.logs[c]);
    LastUpdateIsLastAnswer(Run(steps).world.logs[c]);
  }

  // ----- optimistic concurrency

  lemma OneExchangePerVersion(log: Log, i: nat, j: nat, v: nat, p: nat, q: nat)
    requires Good(log) && ExchangeAt(log, i, v, p) && ExchangeAt(log, j, v, q)
    ensures i == j
  {
    if i < j {
      LoadedVersionsDiffer(log, i, j);
    } else if j < i {
      LoadedVersionsDiffer(log, j, i);
    }
  }

  lemma OneWinnerIn(w: World, p: nat, q: nat, c: Uuid, v: nat)
    requires Consistent(w) && CommittedBy(w, c, v, p) && CommittedBy(w, c, v, q)
    ensures p == q
  {
    assert GoodLogOf(w, c);
    var i: nat :| ExchangeAt(w.logs[c], i, v, p);
    var j: nat :| ExchangeAt(w.logs[c], j, v, q);
    OneExchangePerVersion(w.logs[c], i, j, v, p, q);
  }

  /** Of all continuations that loaded a chat at one version, at most one ever commits. */
  lemma OneWinnerPerVersion(steps: seq<Step>, p: nat, q: nat, c: Uuid, v: nat)
    requires var ps := Run(steps).processes; p in ps && q in ps && Won(ps[p], c, v) && Won(ps[q], c, v)
    ensures p == q
  {
    RunKeeps(steps);
    var s := Run(steps);
    assert Knows(s.world, p, s.processes[p]) && Knows(s.world, q, s.processes[q]);
    OneWinnerIn(s.world, p, q, c, v);
  }

  predicate Won(q: Process, c: Uuid, v: nat) {
    q.Finished? && q.outcome == ExchangeDone(c, v)
  }

  predicate Summarises(chat: Chat, c: Uuid, turns: seq<Turn>) {
    chat.chatId == c && chat.version + 1 == |turns| && turns != [] &&
      chat.lastUpdatedAt == turns[|turns| - 1].llm.sentAt
  }

  lemma ReplaySummarises(log: Log)
    requires Good(log)
    ensures Summarises(Replay(log), Replay(log).chatId, Turns(log))
  {
    VersionCountsTurns(log);
    LastUpdateIsLastAnswer(log);
  }

  /** The stored row counts the committed exchanges and carries the last answer's time. */
  lemma RowSummarisesTurns(steps: seq<Step>, c: Uuid)
    requires ChatKey(c) in Run(steps).world.table
    ensures var w := Run(steps).world;
            c in w.logs && w.table[ChatKey(c)].ChatRow? && Summarises(w.table[ChatKey(c)].chat, c, Turns(w.logs[c]))
  {
    RunKeeps(steps);
    var w := Run(steps).world;
    assert Accounted(w, ChatKey(c)) && GoodLogOf(w, c);
    ReplaySummarises(w.logs[c]);
  }

  /** While a chat row exists its version and last update never decrease, and its owner, session and creation time
      never change. */
  lemma RowsEvolve(steps: seq<Step>, more: seq<Step>, c: Uuid)
    requires ChatKey(c) in Run(steps).world.table && ChatKey(c) in Run(steps + more).world.table
    ensures var a, b := Run(steps).world.table[ChatKey(c)], Run(steps + more).world.table[ChatKey(c)];
            a.ChatRow? && b.ChatRow? && a.chat.version <= b.chat.version && SameIdentity(a.chat, b.chat)
            && a.chat.lastUpdatedAt <= b.chat.lastUpdatedAt
            && (a.chat.version == b.chat.version ==> a.chat.lastUpdatedAt == b.chat.lastUpdatedAt)
  {
    RunKeeps(steps);
    RunKeeps(steps + more);
    RunAdvances(steps, more);
    var w, v := Run(steps).world, Run(steps + more).world;
    assert Accounted(w, ChatKey(c)) && Accounted(v, ChatKey(c));
    LogEvolves(w.logs[c], v.logs[c]);
  }

  lemma {:induction false} AnswersGrow(turns: seq<Turn>, i: nat, j: nat)
    requires Chain(turns) && i <= j < |turns|
    ensures turns[i].llm.sentAt <= turns[j].llm.sentAt
  {
    if i < j {
      AnswersGrow(turns, i, j - 1);
    }
  }

  lemma GoodIsShaped(log: Log)
    requires Good(log)
    ensures Shaped(log)
  {
  }

  lemma UpdatesGrow(log: Log, n: nat)
    requires Good(log) && 1 <= n <= |log|
    ensures Shaped(log[..n]) && Replay(log[..n]).lastUpdatedAt <= Replay(log).lastUpdatedAt
  {
    hide Good, Replay, Turns, Chain, Shaped;
    GoodPrefix(log, n);
    GoodIsShaped(log);
    GoodIsShaped(log[..n]);
    LastUpdateIsLastAnswer(log);
    LastUpdateIsLastAnswer(log[..n]);
    TurnsGrow(log, n);
    GoodLogsChain(log);
    AnswersGrow(Turns(log), |Turns(log[..n])| - 1, |Turns(log)| - 1);
  }

  lemma LogEvolves(earlier: Log, later: Log)
    requires Good(earlier) && Good(later) && earlier <= later
    ensures var a, b := Replay(earlier), Replay(later);
            && a.version <= b.version && SameIdentity(a, b) && a.lastUpdatedAt <= b.lastUpdatedAt
            && (a.version == b.version ==> a.lastUpdatedAt == b.lastUpdatedAt)
  {
    var n := |earlier|;
    assert later[..n] == earlier;
    UpdatesGrow(later, n);
    VersionsGrow(later, n);
    IdentityKept(later, n);
    if Replay(earlier).version == Replay(later).version { VersionDeterminesTurns(later, n); }
  }

  /** No step of process p changed the table. */
  ghost predicate WroteNothing(p: nat, steps: seq<Step>) {
    forall i: nat | i < |steps| && steps[i].process == p :: TableKept(steps, i)
  }

  ghost predicate TableKept(steps: seq<Step>, i: nat)
    requires i < |steps|
  {
    Run(steps[..i + 1]).world.table == Run(steps[..i]).world.table
  }

  /** At no moment of the schedule was the process removing rows. */
  ghost predicate NeverRemoved(p: nat, steps: seq<Step>) {
    forall i | 0 <= i <= |steps| && p in Run(steps[..i]).processes :: !Run(steps[..i]).processes[p].DeleteRemoving?
  }

  /** Not removing rows, and not finished but by a failure. */
  predicate Harmless(q: Process) {
    !q.DeleteRemoving? && (q.Finished? ==> q.outcome.Failed?)
  }

  lemma HarmlessStep(s: State, p: nat, a: Action)
    requires p in s.processes && !s.processes[p].DeleteRemoving? && Harmless(Apply(s, Act(p, a)).processes[p])
    ensures Harmless(s.processes[p]) && Apply(s, Act(p, a)).world.table == s.world.table
  {
    hide KeyLess;
  }

  lemma NeverRemovedBefore(p: nat, steps: seq<Step>)
    requires NeverRemoved(p, steps) && steps != []
    ensures NeverRemoved(p, steps[..|steps| - 1])
    ensures p in Run(steps).processes ==> !Run(steps).processes[p].DeleteRemoving?
  {
    hide Run;
    var before := steps[..|steps| - 1];
    assert steps[..|steps|] == steps;
    forall i | 0 <= i <= |before| && p in Run(before[..i]).processes
      ensures !Run(before[..i]).processes[p].DeleteRemoving?
    {
      assert before[..i] == steps[..i];
    }
  }

  lemma WroteNothingMore(p: nat, steps: seq<Step>)
    requires steps != [] && WroteNothing(p, steps[..|steps| - 1])
    requires steps[|steps| - 1].process == p ==> Run(steps).world.table == Run(steps[..|steps| - 1]).world.table
    ensures WroteNothing(p, steps)
  {
    hide Run, TableKept;
    var n := |steps| - 1;
    LastKept(steps);
    forall i: nat | i < |steps| && steps[i].process == p ensures TableKept(steps, i) {
      if i < n {
        KeptInPrefix(steps, n, i);
      }
    }
  }

  lemma LastKept(steps: seq<Step>)
    requires steps != []
    ensures TableKept(steps, |steps| - 1) <==> Run(steps).world.table == Run(steps[..|steps| - 1]).world.table
  {
    hide Run;
    assert steps[..|steps|] == steps;
  }

  lemma KeptInPrefix(steps: seq<Step>, n: nat, i: nat)
    requires i < n <= |steps|
    ensures steps[..n][i] == steps[i] && (TableKept(steps[..n], i) <==> TableKept(steps, i))
  {
    hide Run;
    assert steps[..n][..i + 1] == steps[..i + 1] && steps[..n][..i] == steps[..i];
  }

  lemma {:induction false} HarmlessSoFar(steps: seq<Step>, p: nat)
    requires NeverRemoved(p, steps) && (p in Run(steps).processes ==> Harmless(Run(steps).processes[p]))
    ensures WroteNothing(p, steps)
  {
    if steps != [] {
      var n := |steps| - 1;
      var before, last := steps[..n], steps[n];
      NeverRemovedBefore(p, steps);
      hide NeverRemoved, WroteNothing;
      if before != [] {
        NeverRemovedBefore(p, before);
      }
      if last.Act? && last.process == p && p in Run(before).processes {
        HarmlessStep(Run(before), p, last.action);
      }
      HarmlessSoFar(before, p);
      WroteNothingMore(p, steps);
    }
  }

  /** A request that failed has changed no row in any of its steps, unless it is a delete that failed while
      removing rows. */
  lemma FailuresWriteNothing(steps: seq<Step>, p: nat)
    requires var ps := Run(steps).processes; p in ps && ps[p].Finished? && ps[p].outcome.Failed?
    requires NeverRemoved(p, steps)
    ensures WroteNothing(p, steps)
  {
    HarmlessSoFar(steps, p);
  }

  /** Not removing rows, and finished only by a failure other than that of a delete underway. */
  predicate FailedBefore(q: Process) {
    Harmless(q) && (q.Finished? ==> q.outcome.failure != DeleteFailed)
  }

  /** Only a delete removes rows, and it then succeeds or fails as a delete. */
  lemma {:induction false} RemovalsFailAsDeletes(steps: seq<Step>, p: nat)
    requires p in Run(steps).processes ==> FailedBefore(Run(steps).processes[p])
    ensures NeverRemoved(p, steps)
  {
    if steps == [] {
      return;
    }
    var n := |steps| - 1;
    var before := steps[..n];
    if steps[n].Act? && steps[n].process == p && p in Run(before).processes {
      EarlierPhase(Run(before).world, p, Run(before).processes[p], steps[n].action);
    }
    RemovalsFailAsDeletes(before, p);
    hide Run;
    forall i | 0 <= i <= |steps| && p in Run(steps[..i]).processes
      ensures !Run(steps[..i]).processes[p].DeleteRemoving?
    {
      if i <= n {
        assert before[..i] == steps[..i];
      } else {
        assert steps[..i] == steps;
      }
    }
  }

  lemma EarlierPhase(w: World, p: nat, q: Process, a: Action)
    requires FailedBefore(React(w, p, q, a).next)
    ensures FailedBefore(q)
  {
    hide KeyLess;
  }

  /** What a commit by q does to the table t: all of it when the turn can be written, the row is as loaded and the
      message keys are free, and nothing otherwise. */
  predicate AllOrNothing(t: Table, after: Table, q: Process, now: Process, fault: bool)
    requires q.ContinueReady?
  {
    var c := q.base.chatId;
    var current := LoadChat(t, c);
    var free := KeyOf(q.question) !in t && KeyOf(q.answer) !in t;
    var failed := fault || !CanBeSaved(q);
    var wins := !failed && free && current.Some? && current.value.version == q.base.version &&
      current.value.userId == q.user;
    if wins then
      && Won(now, c, q.base.version)
      && after
         == t + map[ChatKey(c) := ChatRow(q.chat), KeyOf(q.question) := MessageRow(q.question),
                    KeyOf(q.answer) := MessageRow(q.answer)]
    else
      after == t && now == Finished(q.user, Failed(if failed then SaveFailed else Conflict))
  }

  lemma CommitEffect(w: World, p: nat, q: Process, fault: bool)
    requires q.ContinueReady? && Knows(w, p, q)
    ensures var e := ContinueCommitted(w, p, q, fault);
              AllOrNothing(w.table, Perform(w, e.write).table, q, e.next, fault)
  {
    assert KeyOf(q.question) != KeyOf(q.answer);
  }

  /** A continuation commits exactly when the row still has the version and owner it loaded and its message keys
      are free; it then writes the row it advanced and its two messages, and nothing else. */
  lemma CommitIsAllOrNothing(steps: seq<Step>, p: nat, fault: bool)
    requires p in Run(steps).processes && Run(steps).processes[p].ContinueReady?
    ensures var s, t := Run(steps), Run(steps + [Act(p, Commit(fault))]);
            p in t.processes && AllOrNothing(s.world.table, t.world.table, s.processes[p], t.processes[p], fault)
  {
    RunKeeps(steps);
    RunStep(steps, Act(p, Commit(fault)));
    CommitEffect(Run(steps).world, p, Run(steps).processes[p], fault);
  }

  // ----- conservation

  function KeysOf(ms: seq<Message>): seq<Key> {
    seq(|ms|, i requires 0 <= i < |ms| => KeyOf(ms[i]))
  }

  /** Question, answer, question, answer. */
  predicate Alternate(ms: seq<Message>, turns: seq<Turn>) {
    |ms| == 2 * |turns| && forall i | 0 <= i < |turns| :: ms[2 * i] == turns[i].user && ms[2 * i + 1] == turns[i].llm
  }

  lemma {:induction false} MessagesAlternate(turns: seq<Turn>)
    ensures Alternate(Messages(turns), turns)
  {
    if turns != [] {
      var n := |turns| - 1;
      MessagesAlternate(turns[..n]);
      AlternateExtends(Messages(turns[..n]), turns[..n], turns[n]);
      assert turns == turns[..n] + [turns[n]];
    }
  }

  lemma AlternateExtends(ms: seq<Message>, turns: seq<Turn>, t: Turn)
    requires Alternate(ms, turns)
    ensures Alternate(ms + [t.user, t.llm], turns + [t])
  {
  }

  lemma {:induction false} DistinctCount(keys: seq<Key>)
    requires forall i, j | 0 <= i < j < |keys| :: keys[i] != keys[j]
    ensures |Elements(keys)| == |keys|
  {
    if keys == [] {
      assert Elements(keys) == {};
    } else {
      var n := |keys| - 1;
      DistinctCount(keys[..n]);
      assert keys == keys[..n] + [keys[n]];
      assert Elements(keys) == Elements(keys[..n]) + {keys[n]};
    }
  }

  /** The message keys of an intact chat are exactly those of its committed turns. */
  lemma IntactKeys(w: World, c: Uuid)
    requires Consistent(w) && c in w.logs && c !in w.deleting
    ensures MessageKeys(w.table, c) == Elements(KeysOf(MessagesOf(w.logs[c])))
    ensures forall i, j | 0 <= i < j < |MessagesOf(w.logs[c])| ::
              KeysOf(MessagesOf(w.logs[c]))[i] != KeysOf(MessagesOf(w.logs[c]))[j]
  {
    assert Intact(w, c) && GoodLogOf(w, c);
    var ms := MessagesOf(w.logs[c]);
    var keys := KeysOf(ms);
    forall k ensures k in MessageKeys(w.table, c) <==> k in Elements(keys) {
      if k in MessageKeys(w.table, c) {
        assert Accounted(w, k);
        var i :| 0 <= i < |ms| && ms[i] == w.table[k].message;
        assert keys[i] == k;
      }
      if k in keys {
        var i :| 0 <= i < |keys| && keys[i] == k;
        MessagesBelong(w.logs[c], ms[i]);
      }
    }
  }

  ghost predicate FullyStored(w: World, c: Uuid, turns: seq<Turn>) {
    && ChatKey(c) in w.table && w.table[ChatKey(c)].ChatRow?
    && |turns| == w.table[ChatKey(c)].chat.version + 1
    && |MessageKeys(w.table, c)| == 2 * |turns|
    && Partition(w.table, c) == {ChatKey(c)} + MessageKeys(w.table, c)
    && Paired(turns, c)
    && (forall i | 0 <= i < |turns| ::
          && KeyOf(turns[i].user) in w.table && w.table[KeyOf(turns[i].user)] == MessageRow(turns[i].user)
          && KeyOf(turns[i].llm) in w.table && w.table[KeyOf(turns[i].llm)] == MessageRow(turns[i].llm))
  }

  lemma TurnsStored(t: Table, ms: seq<Message>, turns: seq<Turn>, i: nat)
    requires AllStored(t, ms) && Alternate(ms, turns) && i < |turns|
    ensures KeyOf(turns[i].user) in t && t[KeyOf(turns[i].user)] == MessageRow(turns[i].user)
    ensures KeyOf(turns[i].llm) in t && t[KeyOf(turns[i].llm)] == MessageRow(turns[i].llm)
  {
    assert ms[2 * i] == turns[i].user && ms[2 * i + 1] == turns[i].llm;
  }

  lemma StoredInFull(w: World, c: Uuid, ms: seq<Message>, turns: seq<Turn>)
    requires ChatKey(c) in w.table && w.table[ChatKey(c)].ChatRow? && |turns| == w.table[ChatKey(c)].chat.version + 1
    requires AllStored(w.table, ms) && Alternate(ms, turns) && Paired(turns, c)
    requires MessageKeys(w.table, c) == Elements(KeysOf(ms))
    requires forall i, j | 0 <= i < j < |ms| :: KeysOf(ms)[i] != KeysOf(ms)[j]
    ensures FullyStored(w, c, turns)
  {
    DistinctCount(KeysOf(ms));
    forall i | 0 <= i < |turns|
      ensures KeyOf(turns[i].user) in w.table && w.table[KeyOf(turns[i].user)] == MessageRow(turns[i].user)
      ensures KeyOf(turns[i].llm) in w.table && w.table[KeyOf(turns[i].llm)] == MessageRow(turns[i].llm)
    {
      TurnsStored(w.table, ms, turns, i);
    }
  }

  lemma ConsistentIsFull(w: World, c: Uuid)
    requires Consistent(w) && c in w.logs && c !in w.deleting
    ensures FullyStored(w, c, Turns(w.logs[c]))
  {
    var log := w.logs[c];
    assert Intact(w, c) && GoodLogOf(w, c) && Accounted(w, ChatKey(c));
    IntactKeys(w, c);
    MessagesAlternate(Turns(log));
    VersionCountsTurns(log);
    GoodLogsChain(log);
    StoredInFull(w, c, MessagesOf(log), Turns(log));
  }

  /** Until its owner's delete begins, a chat's partition holds its row and two messages per committed turn
      (the question and the answer with a common request), and nothing else. */
  lemma Conservation(steps: seq<Step>, c: Uuid)
    requires c in Run(steps).world.logs && c !in Run(steps).world.deleting
    ensures FullyStored(Run(steps).world, c, Turns(Run(steps).world.logs[c]))
  {
    RunKeeps(steps);
    ConsistentIsFull(Run(steps).world, c);
  }

  /** No message, once stored, is ever overwritten or lost before the owner's delete begins. */
  lemma MessagesPersist(steps: seq<Step>, more: seq<Step>, k: Key)
    requires k in Run(steps).world.table && k.MessageKey? && k.chatId !in Run(steps + more).world.deleting
    ensures k in Run(steps + more).world.table && Run(steps + more).world.table[k] == Run(steps).world.table[k]
  {
    RunAdvances(steps, more);
  }

  // ----- delete

  /** Once a chat row is gone it stays gone, and nothing is added to the chat's partition again:
      whatever continuations were in flight, the messages left behind only shrink. */
  lemma GoneStaysGone(steps: seq<Step>, more: seq<Step>, c: Uuid)
    requires Gone(Run(steps).world, c)
    ensures Gone(Run(steps + more).world, c)
    ensures Partition(Run(steps + more).world.table, c) <= Partition(Run(steps).world.table, c)
    ensures forall k | k in Partition(Run(steps + more).world.table, c) ::
              k in Run(steps).world.table && Run(steps + more).world.table[k] == Run(steps).world.table[k]
  {
    RunAdvances(steps, more);
  }

  /** A delete that reports success has removed the chat row for good, and every row except the
      messages of exchanges that were committed while it was running. */
  lemma DeleteDoneMeansGone(steps: seq<Step>, p: nat, c: Uuid, n: nat)
    requires var ps := Run(steps).processes; p in ps && ps[p].Finished? && ps[p].outcome == DeleteDone(c, n)
    ensures var w := Run(steps).world;
            && Gone(w, c) && n <= |w.logs[c]|
            && (forall k | k in Partition(w.table, c) :: Added(w.logs[c], n, k))
            && ((forall i | n <= i < |w.logs[c]| :: !w.logs[c][i].Exchanged?) ==> Partition(w.table, c) == {})
  {
    RunKeeps(steps);
    var w := Run(steps).world;
    assert Knows(w, p, Run(steps).processes[p]);
    assert !Added(w.logs[c], n, ChatKey(c));
  }

  /** A delete of chat c for this user, begun when the history of c was n events long. */
  predicate DeleteOf(q: Process, user: Uuid, c: Uuid, n: nat) {
    match q
    case DeleteNew(u, d) => u == user && d == c
    case DeleteQuerying(u, d, m, _, _) => u == user && d == c && m == n
    case DeleteRemoving(u, d, m, _, _) => u == user && d == c && m == n
    case Finished(u, outcome) => u == user && (outcome.DeleteDone? ==> outcome == DeleteDone(c, n))
    case _ => false
  }

  /** Histories are as they were, and rows have only been taken away, from the partition of c. */
  ghost predicate OnlyShrunk(w: World, v: World, c: Uuid) {
    && v.logs == w.logs
    && (forall k | k in v.table :: k in w.table && v.table[k] == w.table[k])
    && (forall k | k in w.table && k.chatId != c :: k in v.table)
  }

  lemma DeleteStep(s: State, p: nat, a: Action, c: Uuid, user: Uuid, n: nat)
    requires p in s.processes && Knows(s.world, p, s.processes[p])
    requires DeleteOf(s.processes[p], user, c, n) && n == |Past(s.world, c)|
    ensures var t := Apply(s, Act(p, a)); DeleteOf(t.processes[p], user, c, n) && OnlyShrunk(s.world, t.world, c)
  {
    hide KeyLess, SweptAll, Swept;
  }

  lemma {:induction false} AloneShrinks(steps: seq<Step>, after: seq<Step>, p: nat, c: Uuid, user: Uuid)
    requires OnlyBy(p, steps, after) && p in Run(steps).processes && Run(steps).processes[p] == DeleteNew(user, c)
    ensures p in Run(after).processes && DeleteOf(Run(after).processes[p], user, c, |Past(Run(steps).world, c)|)
    ensures OnlyShrunk(Run(steps).world, Run(after).world, c)
    decreases |after|
  {
    if |after| == |steps| {
      assert after == steps;
    } else {
      var m := |after| - 1;
      AloneShrinks(steps, after[..m], p, c, user);
      RunKeeps(after[..m]);
      DeleteStep(Run(after[..m]), p, after[m].action, c, user, |Past(Run(steps).world, c)|);
    }
  }

  /** A delete that reports success with nobody else at work has removed exactly the partition of its chat. */
  lemma DeleteAlone(steps: seq<Step>, after: seq<Step>, p: nat, c: Uuid, user: Uuid)
    requires OnlyBy(p, steps, after) && p in Run(steps).processes && Run(steps).processes[p] == DeleteNew(user, c)
    requires p in Run(after).processes && Run(after).processes[p].Finished?
    requires Run(after).processes[p].outcome.DeleteDone?
    ensures Run(after).world.table == Run(steps).world.table - Partition(Run(steps).world.table, c)
  {
    AloneShrinks(steps, after, p, c, user);
    DeleteDoneMeansGone(after, p, c, |Past(Run(steps).world, c)|);
    assert |Past(Run(steps).world, c)| == |Run(after).world.logs[c]|;
    NothingElseGone(Run(steps).world, Run(after).world, c);
  }

  lemma NothingElseGone(w: World, v: World, c: Uuid)
    requires OnlyShrunk(w, v, c) && Partition(v.table, c) == {}
    ensures v.table == w.table - Partition(w.table, c)
  {
    forall k | k in v.table ensures k.chatId != c {
      assert k.chatId == c ==> k in Partition(v.table, c);
    }
  }

  // ----- isolation

  /** A step issued for one user leaves the partition of every chat of another user untouched. */
  lemma OthersUntouched(steps: seq<Step>, p: nat, a: Action, c: Uuid, owner: Uuid)
    requires p in Run(steps).processes && Owned(Run(steps).world, c, owner) && owner != Run(steps).processes[p].user
    ensures var s := Run(steps);
            var t := Apply(s, Act(p, a));
            forall k: Key | k.chatId == c ::
              (k in t.world.table <==> k in s.world.table) &&
                (k in s.world.table ==> t.world.table[k] == s.world.table[k])
  {
    RunKeeps(steps);
    var s := Run(steps);
    if WritesOnlyTo(React(s.world, p, s.processes[p], a).write, c) {
      WriterOwns(s, p, a, c);
    } else {
      ReactIsSound(s.world, p, s.processes[p], a);
      ElsewhereUntouched(s.world, React(s.world, p, s.processes[p], a).write, c);
    }
  }

  lemma ElsewhereUntouched(w: World, write: Write, c: Uuid)
    requires Legal(w, write) && !WritesOnlyTo(write, c)
    ensures forall k: Key | k.chatId == c ::
              (k in Perform(w, write).table <==> k in w.table) &&
                (k in w.table ==> Perform(w, write).table[k] == w.table[k])
  {
  }

  predicate WritesOnlyTo(write: Write, c: Uuid) {
    match write
    case PutStart(chat, _, _) => chat.chatId == c
    case PutExchange(_, _, chat, _, _) => chat.chatId == c
    case SetTitle(d, _) => d == c
    case Remove(k) => k.chatId == c
    case _ => false
  }

  lemma WriterOwns(s: State, p: nat, a: Action, c: Uuid)
    requires Invariant(s) && p in s.processes && c in s.world.logs
    requires WritesOnlyTo(React(s.world, p, s.processes[p], a).write, c)
    ensures Good(s.world.logs[c]) && Replay(s.world.logs[c]).userId == s.processes[p].user
  {
    var w, q := s.world, s.processes[p];
    assert Knows(w, p, q) && GoodLogOf(w, c);
    assert q.StartReady? ==> q.chat.chatId !in w.logs;
    hide Invariant, Good, Replay;
    WriterActs(w, p, q, a, c);
    if q.ContinueReady? {
      LoaderOwns(w, p, q, c);
    } else if q.RenameNew? {
      RowOwnerOwns(w, c);
    }
  }

  /** Who writes to the partition of a known chat. */
  lemma WriterActs(w: World, p: nat, q: Process, a: Action, c: Uuid)
    requires Knows(w, p, q) && c in w.logs && WritesOnlyTo(React(w, p, q, a).write, c)
    requires q.StartReady? ==> q.chat.chatId !in w.logs
    ensures (q.ContinueReady? && q.base.chatId == c) || (q.RenameNew? && RenameAccepted(w.table, c, q.user))
            || (q.DeleteRemoving? && Owned(w, c, q.user))
  {
    hide KeyLess, Snapshot, Good, Replay, GoodStart, ContinuableAt, SweptAll;
  }

  lemma LoaderOwns(w: World, p: nat, q: Process, c: Uuid)
    requires q.ContinueReady? && q.base.chatId == c && Knows(w, p, q) && c in w.logs && Good(w.logs[c])
    ensures Replay(w.logs[c]).userId == q.user
  {
    IdentityKept(w.logs[c], q.loadedAt);
  }

  lemma RowOwnerOwns(w: World, c: Uuid)
    requires Consistent(w) && ChatKey(c) in w.table && c in w.logs && Good(w.logs[c])
    ensures w.table[ChatKey(c)] == ChatRow(Replay(w.logs[c]))
  {
    assert Accounted(w, ChatKey(c));
  }

  // ----- titles

  /** The stored title is the one written by its source event; and that source is the latest rename (or the
      start, when there was none) exactly when no exchange committed since had loaded the chat before it. */
  lemma StoredTitle(steps: seq<Step>, c: Uuid)
    requires ChatKey(c) in Run(steps).world.table
    ensures var w := Run(steps).world;
            && w.table[ChatKey(c)].ChatRow? && c in w.logs && Shaped(w.logs[c])
            && var log := w.logs[c];
            && w.table[ChatKey(c)].chat.title == TitleAt(log[TitleSource(log)])
            && (TitleSource(log) == LastRename(log) <==> NoneLoadedBefore(log, LastRename(log)))
  {
    RunKeeps(steps);
    var w := Run(steps).world;
    assert Accounted(w, ChatKey(c));
    TitleComesFromSource(w.logs[c]);
    TitleLaw(w.logs[c]);
  }

  /** From world w to world v the exchange of process q put back the title it had loaded, and the title stored
      just before survived exactly when no rename committed between that load and this commit. */
  ghost predicate TitlePutBack(w: World, v: World, q: Process)
    requires q.ContinueReady?
  {
    var c := q.base.chatId;
    && ChatKey(c) in v.table && v.table[ChatKey(c)].ChatRow? && v.table[ChatKey(c)].chat.title == q.base.title
    && c in w.logs && c in v.logs && Shaped(w.logs[c]) && Shaped(v.logs[c]) && q.loadedAt <= |w.logs[c]|
    && (TitleSource(v.logs[c]) == TitleSource(w.logs[c]) <==> forall i | q.loadedAt <= i < |w.logs[c]| ::
         !w.logs[c][i].Renamed?)
  }

  lemma ReadyIsCommittable(w: World, p: nat, q: Process)
    requires Consistent(w) && q.ContinueReady? && Knows(w, p, q)
    requires CanBeSaved(q) && ExchangeAccepted(w.table, q.chat, q.question, q.answer)
    ensures var c := q.base.chatId;
            && c in w.logs && Good(w.logs[c]) && Shaped(w.logs[c]) &&
               Committable(w.logs[c], Exchanged(p, q.loadedAt, q.question, q.answer))
            && 1 <= q.loadedAt <= |w.logs[c]| && q.chat.chatId == c && q.chat.title == q.base.title
            && q.question.chatId == c == q.answer.chatId
  {
    assert Accounted(w, ChatKey(q.base.chatId));
  }

  lemma ExchangePerformed(w: World, p: nat, q: Process)
    requires q.ContinueReady? && q.chat.chatId in w.logs && q.question.chatId == q.chat.chatId == q.answer.chatId
    ensures var c, v := q.chat.chatId, Perform(w, ExchangeWrite(p, q));
            && ChatKey(c) in v.table && v.table[ChatKey(c)] == ChatRow(q.chat)
            && c in v.logs && v.logs[c] == w.logs[c] + [Exchanged(p, q.loadedAt, q.question, q.answer)]
  {
  }

  lemma CommitTitle(w: World, p: nat, q: Process)
    requires Consistent(w) && q.ContinueReady? && Knows(w, p, q)
    requires CanBeSaved(q) && ExchangeAccepted(w.table, q.chat, q.question, q.answer)
    ensures TitlePutBack(w, Perform(w, PutExchange(p, q.loadedAt, q.chat, q.question, q.answer)), q)
  {
    var c := q.base.chatId;
    ReadyIsCommittable(w, p, q);
    hide TitleSource, Good, Committable, Replay, Knows, Consistent, Shaped, ExchangeAccepted, CanBeSaved, Perform;
    ExchangePerformed(w, p, q);
    CommitSource(w.logs[c], Exchanged(p, q.loadedAt, q.question, q.answer));
  }

  lemma CommitSource(log: Log, e: Event)
    requires Shaped(log) && Good(log) && e.Exchanged? && 1 <= e.loadedAt <= |log| && Committable(log, e)
    ensures Shaped(log + [e])
    ensures TitleSource(log + [e]) == TitleSource(log) <==> forall i | e.loadedAt <= i < |log| :: !log[i].Renamed?
  {
    hide Good, Committable, Replay, TitleSource, Shaped;
    if e.loadedAt < |log| {
      OnlyRenamesBetween(log, e, |log| - 1);
    }
    SourceAfterCommit(log, e);
  }

  /** A committed exchange puts back the title it loaded. The title that was stored just before survives it
      exactly when no rename committed between that load and this commit. */
  lemma CommitPutsBackTitle(steps: seq<Step>, p: nat)
    requires p in Run(steps).processes && Run(steps).processes[p].ContinueReady?
    requires var q := Run(steps).processes[p];
             CanBeSaved(q) && ExchangeAccepted(Run(steps).world.table, q.chat, q.question, q.answer)
    ensures TitlePutBack(Run(steps).world, Run(steps + [Act(p, Commit(false))]).world, Run(steps).processes[p])
  {
    RunKeeps(steps);
    RunStep(steps, Act(p, Commit(false)));
    assert Knows(Run(steps).world, p, Run(steps).processes[p]);
    CommitTitle(Run(steps).world, p, Run(steps).processes[p]);
  }

  lemma SourceOfCommit(log: Log, e: Event)
    requires Shaped(log) && e.Exchanged? && 1 <= e.loadedAt <= |log|
    ensures Shaped(log + [e]) && TitleSource(log + [e]) == TitleSource(log[..e.loadedAt])
  {
    assert (log + [e])[..e.loadedAt] == log[..e.loadedAt];
  }

  lemma OnlyRenamesBetween(log: Log, e: Event, i: nat)
    requires Good(log) && e.Exchanged? && Committable(log, e) && e.loadedAt <= i < |log|
    ensures log[i].Renamed?
  {
    GoodCommit(log, e);
    NoExchangeWhileCommitting(log + [e], i);
  }

  lemma RenameIsSource(log: Log)
    requires Shaped(log) && log[|log| - 1].Renamed?
    ensures TitleSource(log) == |log| - 1
  {
  }

  lemma SourceAfterCommit(log: Log, e: Event)
    requires Shaped(log) && e.Exchanged? && 1 <= e.loadedAt <= |log|
    requires e.loadedAt < |log| ==> log[|log| - 1].Renamed?
    ensures Shaped(log + [e])
    ensures TitleSource(log + [e]) == TitleSource(log) <==> forall i | e.loadedAt <= i < |log| :: !log[i].Renamed?
  {
    SourceOfCommit(log, e);
    if e.loadedAt < |log| {
      RenameIsSource(log);
    } else {
      assert log[..e.loadedAt] == log;
    }
  }

  // ----- reading

  /** Whenever an answer ties in time with the next question, the answered request has the smaller id. */
  predicate TiesOrdered(turns: seq<Turn>) {
    forall i | 0 < i < |turns| && turns[i - 1].llm.sentAt == turns[i].user.sentAt ::
      turns[i - 1].llm.requestId < turns[i].user.requestId
  }

  /** Keys of a chain in commit order ascend exactly when every tie is ordered by request id. */
  lemma ChainAscends(turns: seq<Turn>, ms: seq<Message>, c: Uuid)
    requires Chain(turns) && Paired(turns, c) && Alternate(ms, turns)
    ensures Ascending(KeysOf(ms), KeyLess) <==> TiesOrdered(turns)
  {
    var keys := KeysOf(ms);
    if Ascending(keys, KeyLess) {
      forall i | 0 < i < |turns| && turns[i - 1].llm.sentAt == turns[i].user.sentAt
        ensures turns[i - 1].llm.requestId < turns[i].user.requestId
      {
        assert keys[2 * (i - 1) + 1] == KeyOf(turns[i - 1].llm) && keys[2 * i] == KeyOf(turns[i].user);
        assert KeyLess(keys[2 * i - 1], keys[2 * i]);
      }
    }
    if TiesOrdered(turns) {
      NeighboursAscend(turns, ms, c);
      SteadyAscent(keys);
    }
  }

  lemma NeighboursAscend(turns: seq<Turn>, ms: seq<Message>, c: Uuid)
    requires Chain(turns) && Paired(turns, c) && TiesOrdered(turns) && Alternate(ms, turns)
    ensures forall m | 0 < m < |ms| :: KeyLess(KeysOf(ms)[m - 1], KeysOf(ms)[m])
  {
    var keys := KeysOf(ms);
    forall m | 0 < m < |ms| ensures KeyLess(keys[m - 1], keys[m]) {
      var i := m / 2;
      if m == 2 * i {
        assert keys[m - 1] == KeyOf(turns[i - 1].llm) by { assert ms[2 * (i - 1) + 1] == turns[i - 1].llm; }
        assert keys[m] == KeyOf(turns[i].user);
      } else {
        assert keys[m - 1] == KeyOf(turns[i].user) && keys[m] == KeyOf(turns[i].llm);
      }
    }
  }

  lemma SteadyAscent(keys: seq<Key>)
    requires forall m | 0 < m < |keys| :: KeyLess(keys[m - 1], keys[m])
    ensures Ascending(keys, KeyLess)
  {
    forall i, j | 0 <= i < j < |keys| ensures KeyLess(keys[i], keys[j]) {
      StepsAdd(keys, i, j);
    }
  }

  lemma {:induction false} StepsAdd(keys: seq<Key>, i: nat, j: nat)
    requires forall m | 0 < m < |keys| :: KeyLess(keys[m - 1], keys[m])
    requires i < j < |keys|
    ensures KeyLess(keys[i], keys[j])
  {
    if i < j - 1 {
      StepsAdd(keys, i, j - 1);
    }
  }

  predicate ByTime(keys: seq<Key>) {
    forall i, j | 0 <= i < j < |keys| :: keys[i].MessageKey? && keys[j].MessageKey? && keys[i].sentAt <= keys[j].sentAt
  }

  lemma ListedAscending(t: Table, c: Uuid)
    ensures var listed := ListMessages(t, c);
            && (forall k :: k in listed <==> k in MessageKeys(t, c)) && |listed| == |MessageKeys(t, c)|
            && Ascending(listed, KeyLess) && StrictTotal(KeyLess)
            && ByTime(listed)
  {
    KeyOrderIsTotal();
    InOrderIsOrdered(MessageKeys(t, c), KeyLess);
    var listed := ListMessages(t, c);
    forall i, j | 0 <= i < j < |listed|
      ensures listed[i].MessageKey? && listed[j].MessageKey? && listed[i].sentAt <= listed[j].sentAt
    {
      assert listed[i] in MessageKeys(t, c) && listed[j] in MessageKeys(t, c);
      assert KeyLess(listed[i], listed[j]);
    }
  }

  lemma CommitOrderIsListing(t: Table, c: Uuid, committed: seq<Key>)
    requires MessageKeys(t, c) == Elements(committed)
    ensures ListMessages(t, c) == committed <==> Ascending(committed, KeyLess)
  {
    ListedAscending(t, c);
    if Ascending(committed, KeyLess) {
      IsInOrder(committed, MessageKeys(t, c), KeyLess);
    }
  }

  /** Listing an intact chat gives its messages once each by ascending time; and it gives question, answer,
      question, answer in commit order exactly when every tie in time is ordered by request id. */
  lemma ListingIsHistory(steps: seq<Step>, c: Uuid)
    requires c in Run(steps).world.logs && c !in Run(steps).world.deleting
    ensures var w := Run(steps).world;
            var listed, committed := ListMessages(w.table, c), KeysOf(MessagesOf(w.logs[c]));
            && (forall k :: k in listed <==> k in committed) && |listed| == |committed|
            && ByTime(listed)
            && (listed == committed <==> TiesOrdered(Turns(w.logs[c])))
  {
    RunKeeps(steps);
    var w := Run(steps).world;
    TurnsFormChain(steps, c);
    IntactKeys(w, c);
    MessagesAlternate(Turns(w.logs[c]));
    ListingOfTurns(w.table, c, Turns(w.logs[c]), MessagesOf(w.logs[c]));
  }

  lemma ListingOfTurns(t: Table, c: Uuid, turns: seq<Turn>, ms: seq<Message>)
    requires Chain(turns) && Paired(turns, c) && Alternate(ms, turns)
    requires MessageKeys(t, c) == Elements(KeysOf(ms))
    requires forall i, j | 0 <= i < j < |ms| :: KeysOf(ms)[i] != KeysOf(ms)[j]
    ensures (forall k :: k in ListMessages(t, c) <==> k in KeysOf(ms)) && |ListMessages(t, c)| == |ms|
    ensures ListMessages(t, c) == KeysOf(ms) <==> TiesOrdered(turns)
    ensures ByTime(ListMessages(t, c))
  {
    DistinctCount(KeysOf(ms));
    ListedAscending(t, c);
    ChainAscends(turns, ms, c);
    CommitOrderIsListing(t, c, KeysOf(ms));
  }
}
