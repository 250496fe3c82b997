/** Deletes of one chat that overlap, and what they leave together. With ordered ties no page misses anything, so what
    is left was committed after every last page. */
module Overlaps {
  import opened Text
  import opened Uuids
  import opened Domain
  import opened Sorting
  import opened Store
  import opened History
  import opened World
  import opened Protocol
  import opened Guarantees
  import opened Leftovers

  // ----- rows that came in behind the pages

  /** At some moment the key was unused while a key of the chat that comes behind it was stored. */
  ghost predicate CameLate(steps: seq<Step>, c: Uuid, k: Key) {
    exists s, g :: s <= steps && LateAt(Run(s).world.table, c, k, g)
  }

  predicate LateAt(t: Table, c: Uuid, k: Key, g: Key) {
    g in t && g.chatId == c && KeyLess(k, g) && k !in t
  }

  /** Every key up to the cursor of a query was found, or came late. */
  ghost predicate Passed(steps: seq<Step>, q: Process) {
    q.DeleteQuerying? ==>
      forall k: Key | k.chatId == q.chatId && q.cursor.Some? && !KeyLess(q.cursor.value, k) ::
        k in q.found || CameLate(steps, q.chatId, k)
  }

  lemma PassedStill(steps: seq<Step>, step: Step, q: Process)
    requires Passed(steps, q)
    ensures Passed(steps + [step], q)
  {
    hide KeyLess, Run, LateAt;
    if q.DeleteQuerying? {
      forall k: Key | CameLate(steps, q.chatId, k) ensures CameLate(steps + [step], q.chatId, k) {
        var s, g :| s <= steps && LateAt(Run(s).world.table, q.chatId, k, g);
        assert s <= steps + [step];
      }
    }
  }

  /** A key up to the end of the page was found before, is on the page, or is not stored while the page's last is. */
  lemma PagePasses(steps: seq<Step>, q: Process, upTo: Key, k: Key)
    requires q.DeleteQuerying? && Passed(steps, q) && k.chatId == q.chatId && !KeyLess(upTo, k)
    requires upTo in PageKeys(Run(steps).world.table, q.chatId, q.cursor, Some(upTo))
    ensures k in q.found || k in PageKeys(Run(steps).world.table, q.chatId, q.cursor, Some(upTo))
            || CameLate(steps, q.chatId, k)
  {
    hide KeyLess, Run;
    KeyOrderIsTotal();
    if k !in Run(steps).world.table && k != upTo {
      assert KeyLess(k, upTo);
      assert LateAt(Run(steps).world.table, q.chatId, k, upTo);
    }
  }

  lemma PageExtendsPassed(steps: seq<Step>, q: Process, upTo: Option<Key>, fault: bool)
    requires q.DeleteQuerying? && Passed(steps, q)
    ensures Passed(steps, DeletePage(Run(steps).world, q, upTo, fault).next)
  {
    hide KeyLess, Run, CameLate;
    var t := Run(steps).world.table;
    if !fault && upTo.Some? && upTo.value in PageKeys(t, q.chatId, q.cursor, upTo) {
      KeyOrderIsTotal();
      var page := PageKeys(t, q.chatId, q.cursor, upTo);
      InOrderIsOrdered(page, KeyLess);
      var found := q.found + InOrder(page, KeyLess);
      forall k: Key | k.chatId == q.chatId && !KeyLess(upTo.value, k)
        ensures k in found || CameLate(steps, q.chatId, k)
      {
        PagePasses(steps, q, upTo.value, k);
      }
    }
  }

  lemma ReactPasses(steps: seq<Step>, p: nat, q: Process, a: Action)
    requires Passed(steps, q)
    ensures Passed(steps, React(Run(steps).world, p, q, a).next)
  {
    hide KeyLess, Run, DeletePage;
    if q.DeleteQuerying? && a.Page? {
      PageExtendsPassed(steps, q, a.upTo, a.fault);
    }
  }

  /** In every state of every run the pages of every query have passed only rows that came late. */
  lemma {:induction false} PagesPass(steps: seq<Step>, p: nat)
    requires p in Run(steps).processes
    ensures Passed(steps, Run(steps).processes[p])
  {
    var l := |steps| - 1;
    var before, last := steps[..l], steps[l];
    assert steps == before + [last];
    if p in Run(before).processes {
      PagesPass(before, p);
      if last.Act? && last.process == p {
        ReactPasses(before, p, Run(before).processes[p], last.action);
      }
      PassedStill(before, last, Run(steps).processes[p]);
    }
  }

  // ----- with ordered ties nothing comes late

  lemma KeyPosition(ms: seq<Message>, k: Key)
    ensures k in KeysOf(ms) <==> exists i :: 0 <= i < |ms| && KeyOf(ms[i]) == k
  {
    if k in KeysOf(ms) {
      var i :| 0 <= i < |KeysOf(ms)| && KeysOf(ms)[i] == k;
      assert KeyOf(ms[i]) == k;
    }
    if exists i :: 0 <= i < |ms| && KeyOf(ms[i]) == k {
      var i :| 0 <= i < |ms| && KeyOf(ms[i]) == k;
      assert KeysOf(ms)[i] == k;
    }
  }

  /** A key added from position n of a history on belongs to a message behind those of the history before. */
  lemma {:induction false} AddedBehind(log: Log, n: nat, k: Key) returns (i: nat)
    requires n <= |log| && Added(log, n, k)
    ensures |MessagesOf(log[..n])| <= i < |MessagesOf(log)| && KeyOf(MessagesOf(log)[i]) == k
  {
    var l := |log| - 1;
    var before, e := log[..l], log[l];
    assert log == before + [e] && before[..n] == log[..n];
    MessagesAppend(before, e);
    LogMessagesGrow(log[..n], before);
    if e.Exchanged? && (k == KeyOf(e.user) || k == KeyOf(e.llm)) {
      i := |MessagesOf(before)| + (if k == KeyOf(e.user) then 0 else 1);
    } else {
      assert Added(before, n, k) by {
        var j :| n <= j < |log| && log[j].Exchanged? && (k == KeyOf(log[j].user) || k == KeyOf(log[j].llm));
        assert before[j] == log[j];
      }
      i := AddedBehind(before, n, k);
    }
  }

  lemma OrderedKeys(log: Log)
    requires Good(log) && TiesOrdered(Turns(log))
    ensures Sorting.Ascending(KeysOf(MessagesOf(log)), KeyLess)
  {
    GoodLogsChain(log);
    MessagesAlternate(Turns(log));
    ChainAscends(Turns(log), MessagesOf(log), Replay(log).chatId);
  }

  lemma StoredMessageKey(w: World, g: Key) returns (j: nat)
    requires Consistent(w) && g in w.table && g.MessageKey?
    ensures g.chatId in w.logs && j < |MessagesOf(w.logs[g.chatId])| && KeyOf(MessagesOf(w.logs[g.chatId])[j]) == g
  {
    assert Accounted(w, g);
    var ms := MessagesOf(w.logs[g.chatId]);
    j :| 0 <= j < |ms| && ms[j] == w.table[g].message;
  }

  lemma AddedInTurn(log: Log, n: nat, k: Key, j: nat)
    requires Good(log) && TiesOrdered(Turns(log)) && n <= |log| && Added(log, n, k) && j < |MessagesOf(log[..n])|
    ensures !KeyLess(k, KeyOf(MessagesOf(log[..n])[j])) && k != KeyOf(MessagesOf(log[..n])[j])
  {
    OrderedKeys(log);
    var i := AddedBehind(log, n, k);
    LogMessagesGrow(log[..n], log);
    hide MessagesOf, KeyLess, Good, Added, TiesOrdered, Turns;
    InTurn(KeysOf(MessagesOf(log)), j, i);
  }

  lemma AddedSince(u: World, w: World, c: Uuid, k: Key)
    requires Consistent(w) && Advances(u, w) && c in u.logs && k in w.table && k !in u.table && k.chatId == c
    ensures c in w.logs && Good(w.logs[c]) && |u.logs[c]| <= |w.logs[c]| && w.logs[c][..|u.logs[c]|] == u.logs[c]
    ensures Added(w.logs[c], |u.logs[c]|, k)
  {
    assert u.logs[c] <= w.logs[c] && GoodLogOf(w, c);
  }

  /** A row that came in later comes later in key order. */
  lemma NotBehind(u: World, w: World, c: Uuid, k: Key, g: Key)
    requires Consistent(u) && Consistent(w) && Advances(u, w) && c in w.logs && TiesOrdered(Turns(w.logs[c]))
    requires k in w.table && k.chatId == c && k !in u.table && g in u.table && g.chatId == c
    ensures !KeyLess(k, g)
  {
    if g.MessageKey? {
      var j := StoredMessageKey(u, g);
      hide Consistent, TiesOrdered, Turns, MessagesOf, Good;
      AddedSince(u, w, c, k);
      hide Advances;
      AddedInTurn(w.logs[c], |u.logs[c]|, k, j);
    }
  }

  lemma InTurn(keys: seq<Key>, j: nat, i: nat)
    requires Sorting.Ascending(keys, KeyLess) && j < i < |keys|
    ensures !KeyLess(keys[i], keys[j]) && keys[i] != keys[j]
  {
    assert KeyLess(keys[j], keys[i]);
    NotBothWays(keys[j], keys[i]);
  }

  lemma NotBothWays(a: Key, b: Key)
    ensures !(KeyLess(a, b) && KeyLess(b, a)) && !KeyLess(a, a)
  {
  }

  lemma NeverLate(steps: seq<Step>, c: Uuid, k: Key)
    requires c in Run(steps).world.logs && TiesOrdered(Turns(Run(steps).world.logs[c]))
    requires k in Run(steps).world.table && k.chatId == c
    ensures !CameLate(steps, c, k)
  {
    hide KeyLess;
    forall s, g | s <= steps && g in Run(s).world.table && g.chatId == c && k !in Run(s).world.table
      ensures !KeyLess(k, g)
    {
      MomentAdvances(s, steps);
      NotBehind(Run(s).world, Run(steps).world, c, k, g);
    }
  }

  /** With ordered ties the pages of a query miss nothing. */
  lemma NothingMissed(steps: seq<Step>, p: nat, c: Uuid)
    requires p in Run(steps).processes && Run(steps).processes[p].DeleteQuerying? && Run(steps).processes[p].chatId == c
    requires c in Run(steps).world.logs && TiesOrdered(Turns(Run(steps).world.logs[c]))
    ensures var q := Run(steps).processes[p]; Missed(Run(steps).world.table, c, q.cursor, q.found) == {}
  {
    hide KeyLess, CameLate;
    var t, q := Run(steps).world.table, Run(steps).processes[p];
    PagesPass(steps, p);
    forall k | k in t && k.chatId == c ensures !CameLate(steps, c, k) {
      NeverLate(steps, c, k);
    }
  }

  /** With ordered ties a successful delete that no other joins leaves nothing exactly when no exchange was committed
      since its last page. */
  lemma CleanWhenQuiet(begun: seq<Step>, steps: seq<Step>, after: seq<Step>, p: nat, c: Uuid, n: nat)
    requires DeletesAlongside(begun, steps, after, p, c, n)
    requires c in Run(steps).world.logs && TiesOrdered(Turns(Run(steps).world.logs[c]))
    ensures var w, v := Run(steps).world, Run(after).world;
            && c in v.logs
            && (Partition(v.table, c) == {} <==> QuietSince(v.logs[c], |w.logs[c]|))
  {
    LeavesNothing(begun, steps, after, p, c, n);
    SpareBetween(p, c, begun, steps, after);
    RunQueries(begun, steps, p, c, n);
    NothingMissed(steps, p, c);
  }

  /** No exchange was committed at or after position n of the history. */
  predicate QuietSince(log: Log, n: nat) {
    forall i | n <= i < |log| :: !log[i].Exchanged?
  }

  // ----- what a chat has had

  /** The key was written in the history of the chat: its row's, or that of a committed message. */
  predicate Owed(w: World, c: Uuid, k: Key) {
    c in w.logs && (k == ChatKey(c) || k in KeysOf(MessagesOf(w.logs[c])))
  }

  lemma StoredIsOwed(w: World, k: Key)
    requires Consistent(w) && k in w.table
    ensures Owed(w, k.chatId, k)
  {
    assert Accounted(w, k);
    if k.MessageKey? {
      var j := StoredMessageKey(w, k);
      KeyPosition(MessagesOf(w.logs[k.chatId]), k);
    }
  }

  lemma OwedStill(u: World, w: World, c: Uuid, k: Key)
    requires Advances(u, w) && Owed(u, c, k)
    ensures Owed(w, c, k)
  {
    if k != ChatKey(c) {
      LogMessagesGrow(u.logs[c], w.logs[c]);
      KeyPosition(MessagesOf(u.logs[c]), k);
      KeyPosition(MessagesOf(w.logs[c]), k);
    }
  }

  /** With ordered ties what was written and is gone never comes back. */
  lemma GoneForGood(u: World, w: World, c: Uuid, k: Key)
    requires Consistent(u) && Consistent(w) && Advances(u, w) && c in w.logs && TiesOrdered(Turns(w.logs[c]))
    requires Owed(u, c, k) && k.chatId == c && k !in u.table
    ensures k !in w.table
  {
    hide KeyLess, Consistent, TiesOrdered, Turns, MessagesOf, Good;
    if k in w.table {
      AddedSince(u, w, c, k);
      hide Advances;
      AddedOnce(w.logs[c], |u.logs[c]|, c, k);
    }
  }

  lemma AddedOnce(log: Log, n: nat, c: Uuid, k: Key)
    requires Good(log) && TiesOrdered(Turns(log)) && n <= |log| && Added(log, n, k)
    ensures k != ChatKey(c) && k !in KeysOf(MessagesOf(log[..n]))
  {
    hide KeyLess, TiesOrdered, Turns, Good;
    forall j | 0 <= j < |MessagesOf(log[..n])| ensures KeyOf(MessagesOf(log[..n])[j]) != k {
      AddedInTurn(log, n, k, j);
    }
    KeyPosition(MessagesOf(log[..n]), k);
  }

  // ----- what the deletes have listed

  /** The delete has listed the key and not yet removed it. */
  predicate ToRemove(q: Process, c: Uuid, k: Key) {
    q.DeleteRemoving? && q.chatId == c && (k in q.batch || k in q.rest)
  }

  ghost predicate ListedBy(p: nat, steps: seq<Step>, after: seq<Step>, c: Uuid, k: Key) {
    steps <= after && p in Run(steps).processes && ToRemove(Run(steps).processes[p], c, k)
  }

  /** Some delete of the chat listed the key. */
  ghost predicate Listed(after: seq<Step>, c: Uuid, k: Key) {
    exists p, steps :: ListedBy(p, steps, after, c, k)
  }

  /** Every delete of the chat that began to remove rows has succeeded. */
  ghost predicate AllDone(after: seq<Step>, c: Uuid) {
    forall p, steps, k | ListedBy(p, steps, after, c, k) ::
      p in Run(after).processes && Run(after).processes[p].Finished? && Run(after).processes[p].outcome.DeleteDone?
  }

  lemma ListedStill(steps: seq<Step>, after: seq<Step>, c: Uuid, k: Key)
    requires Listed(steps, c, k) && steps <= after
    ensures Listed(after, c, k)
  {
    var p, s :| ListedBy(p, s, steps, c, k);
    assert ListedBy(p, s, after, c, k);
  }

  /** A write takes nothing of what a chat has had away but by removing it. */
  lemma OwedKept(w: World, write: Write, c: Uuid, k: Key)
    requires Consistent(w) && Legal(w, write) && Owed(Perform(w, write), c, k) && k.chatId == c
    requires Owed(w, c, k) ==> k in w.table
    ensures k in Perform(w, write).table || write == Remove(k)
  {
    hide Owed, Legal, Consistent;
    if !Owed(w, c, k) {
      NewlyOwed(w, write, c, k);
    }
  }

  lemma FirstMessages(e: Event)
    requires !e.Renamed?
    ensures MessagesOf([e]) == [e.user, e.llm]
  {
    MessagesAppend([], e);
    assert [] + [e] == [e] && Turns([]) == [];
  }

  lemma StartOwes(w: World, chat: Chat, user: Message, llm: Message, k: Key)
    requires chat.chatId !in w.logs && Owed(Perform(w, PutStart(chat, user, llm)), chat.chatId, k)
    ensures k in Perform(w, PutStart(chat, user, llm)).table
  {
    hide MessagesOf;
    var e := Started(chat, user, llm);
    FirstMessages(e);
    assert [] + [e] == [e];
    KeyPosition([user, llm], k);
  }

  lemma ExchangeOwes(w: World, p: nat, n: nat, chat: Chat, user: Message, llm: Message, k: Key)
    requires chat.chatId in w.logs && !Owed(w, chat.chatId, k)
    requires Owed(Perform(w, PutExchange(p, n, chat, user, llm)), chat.chatId, k)
    ensures k in Perform(w, PutExchange(p, n, chat, user, llm)).table
  {
    hide MessagesOf;
    MessagesAppend(w.logs[chat.chatId], Exchanged(p, n, user, llm));
    NewKeys(w.logs[chat.chatId], [user, llm], k);
  }

  lemma StartsAreNew(w: World, write: Write)
    requires Legal(w, write)
    ensures write.PutStart? ==> write.chat.chatId !in w.logs
    ensures write.PutExchange? ==> write.chat.chatId in w.logs
  {
  }

  lemma RenameOwes(w: World, d: Uuid, title: string, c: Uuid, k: Key)
    requires Consistent(w) && Legal(w, SetTitle(d, title)) && Owed(Perform(w, SetTitle(d, title)), c, k)
    ensures Owed(w, c, k)
  {
    hide MessagesOf, Good;
    assert Accounted(w, ChatKey(d));
    MessagesAppend(w.logs[d], Renamed(title));
    assert MessagesOf(w.logs[d]) + [] == MessagesOf(w.logs[d]);
  }

  lemma NewlyOwed(w: World, write: Write, c: Uuid, k: Key)
    requires Consistent(w) && Legal(w, write) && Owed(Perform(w, write), c, k) && k.chatId == c && !Owed(w, c, k)
    ensures k in Perform(w, write).table
  {
    StartsAreNew(w, write);
    hide MessagesOf, Consistent, Legal, GoodStart;
    match write
    case PutStart(chat, user, llm) =>
      if chat.chatId == c { StartOwes(w, chat, user, llm, k); }
    case PutExchange(p, n, chat, user, llm) =>
      if chat.chatId == c { ExchangeOwes(w, p, n, chat, user, llm, k); }
    case SetTitle(d, title) =>
      RenameOwes(w, d, title, c, k);
    case _ =>
  }

  lemma NewKeys(past: Log, ms: seq<Message>, k: Key)
    requires |ms| == 2 && k !in KeysOf(MessagesOf(past)) && k in KeysOf(MessagesOf(past) + ms)
    ensures k == KeyOf(ms[0]) || k == KeyOf(ms[1])
  {
    KeyPosition(MessagesOf(past), k);
    KeyPosition(MessagesOf(past) + ms, k);
  }

  lemma RemovedIsListed(w: World, p: nat, q: Process, a: Action, k: Key)
    requires Knows(w, p, q) && React(w, p, q, a).write == Remove(k)
    ensures ToRemove(q, k.chatId, k)
  {
    hide KeyLess, SweptAll, Owned;
  }

  /** What a chat has had and no delete listed is stored. */
  lemma {:induction false} KeptUnlessListed(after: seq<Step>, c: Uuid, k: Key)
    requires Owed(Run(after).world, c, k) && k.chatId == c && !Listed(after, c, k)
    ensures k in Run(after).world.table
  {
    var l := |after| - 1;
    var before, last := after[..l], after[l];
    assert after == before + [last];
    if Owed(Run(before).world, c, k) {
      if Listed(before, c, k) { ListedStill(before, after, c, k); }
      KeptUnlessListed(before, c, k);
    }
    RunKeeps(before);
    RunStep(before, last);
    StepKeepsOwed(before, last, c, k);
  }

  lemma StepKeepsOwed(before: seq<Step>, last: Step, c: Uuid, k: Key)
    requires Invariant(Run(before)) && Owed(Apply(Run(before), last).world, c, k) && k.chatId == c
    requires !Listed(before + [last], c, k) && (Owed(Run(before).world, c, k) ==> k in Run(before).world.table)
    ensures k in Apply(Run(before), last).world.table
  {
    hide Owed, Run, React, Perform, Knows, Legal, Consistent;
    var s := Run(before);
    if last.Act? && last.process in s.processes {
      var r, a := last.process, last.action;
      ReactIsSound(s.world, r, s.processes[r], a);
      OwedKept(s.world, React(s.world, r, s.processes[r], a).write, c, k);
      if React(s.world, r, s.processes[r], a).write == Remove(k) {
        RemovedIsListed(s.world, r, s.processes[r], a, k);
        ListedNow(before, last, r, c, k);
      }
    }
  }

  lemma ListedNow(before: seq<Step>, last: Step, p: nat, c: Uuid, k: Key)
    requires p in Run(before).processes && ToRemove(Run(before).processes[p], c, k)
    ensures Listed(before + [last], c, k)
  {
    assert ListedBy(p, before, before + [last], c, k);
  }

  // ----- a successful delete removes what it listed

  ghost predicate GoneAt(s: seq<Step>, t: seq<Step>, k: Key) {
    exists m :: s <= m <= t && k !in Run(m).world.table
  }

  lemma RemovalStep(w: World, p: nat, q: Process, a: Action, c: Uuid, k: Key)
    requires ToRemove(q, c, k)
    ensures var e := React(w, p, q, a);
            ToRemove(e.next, c, k) || e.write == Remove(k) || (e.next.Finished? && e.next.outcome.Failed?)
  {
    if a.NextBatch? && q.batch == {} {
      var n := if |q.rest| < BATCH then |q.rest| else BATCH;
      assert q.rest == q.rest[..n] + q.rest[n..];
    }
  }

  lemma RemovalEnded(w: World, p: nat, q: Process, a: Action)
    requires q.Finished?
    ensures React(w, p, q, a) == Effect(q, Nothing)
  {
  }

  lemma {:induction false} RemovalProgress(p: nat, s: seq<Step>, t: seq<Step>, c: Uuid, k: Key)
    requires ListedBy(p, s, t, c, k)
    ensures p in Run(t).processes
    ensures var q := Run(t).processes[p];
            ToRemove(q, c, k) || (q.Finished? && q.outcome.Failed?) || GoneAt(s, t, k)
    decreases |t|
  {
    if |t| == |s| {
      assert t == s;
    } else {
      var l := |t| - 1;
      var before, last := t[..l], t[l];
      assert t == before + [last] && s <= before;
      RemovalProgress(p, s, before, c, k);
      if GoneAt(s, before, k) {
        var m :| s <= m <= before && k !in Run(m).world.table;
        assert s <= m <= t;
      } else if last.Act? && last.process == p {
        ProgressStep(before, last, p, c, k);
        assert s <= t <= t;
      }
    }
  }

  lemma ProgressStep(before: seq<Step>, last: Step, p: nat, c: Uuid, k: Key)
    requires p in Run(before).processes && last.Act? && last.process == p
    requires var q := Run(before).processes[p]; ToRemove(q, c, k) || (q.Finished? && q.outcome.Failed?)
    ensures p in Run(before + [last]).processes
    ensures var q := Run(before + [last]).processes[p];
            ToRemove(q, c, k) || (q.Finished? && q.outcome.Failed?) || k !in Run(before + [last]).world.table
  {
    RunStep(before, last);
    hide Run, React, ToRemove;
    var w, q := Run(before).world, Run(before).processes[p];
    if ToRemove(q, c, k) {
      RemovalStep(w, p, q, last.action, c, k);
    } else {
      RemovalEnded(w, p, q, last.action);
    }
  }

  /** The delete's last page was taken in the state of steps. */
  ghost predicate TookLastPage(steps: seq<Step>, after: seq<Step>, p: nat, c: Uuid) {
    && steps + [Act(p, Page(None, false))] <= after
    && p in Run(steps).processes && Run(steps).processes[p].DeleteQuerying? && Run(steps).processes[p].chatId == c
  }

  ghost predicate FoundOwed(w: World, q: Process) {
    q.DeleteQuerying? ==> forall k | k in q.found :: Owed(w, q.chatId, k)
  }

  lemma PageOwed(w: World, q: Process, upTo: Option<Key>, k: Key)
    requires Consistent(w) && q.DeleteQuerying? && FoundOwed(w, q)
    requires StrictTotal(KeyLess) && k in q.found + InOrder(PageKeys(w.table, q.chatId, q.cursor, upTo), KeyLess)
    ensures Owed(w, q.chatId, k)
  {
    hide KeyLess, Owed, Consistent;
    InOrderIsOrdered(PageKeys(w.table, q.chatId, q.cursor, upTo), KeyLess);
    if k !in q.found {
      assert k in PageKeys(w.table, q.chatId, q.cursor, upTo);
      StoredIsOwed(w, k);
    }
  }

  lemma ReactFoundOwed(w: World, p: nat, q: Process, a: Action)
    requires Consistent(w) && FoundOwed(w, q)
    ensures FoundOwed(w, React(w, p, q, a).next)
  {
    hide KeyLess, Owed, Consistent;
    if q.DeleteQuerying? && a.Page? {
      KeyOrderIsTotal();
      forall k | k in q.found + InOrder(PageKeys(w.table, q.chatId, q.cursor, a.upTo), KeyLess)
        ensures Owed(w, q.chatId, k)
      {
        PageOwed(w, q, a.upTo, k);
      }
    }
  }

  lemma FoundOwedStill(u: World, w: World, q: Process)
    requires Advances(u, w) && FoundOwed(u, q)
    ensures FoundOwed(w, q)
  {
    hide Owed, Advances;
    if q.DeleteQuerying? {
      forall k | k in q.found ensures Owed(w, q.chatId, k) {
        OwedStill(u, w, q.chatId, k);
      }
    }
  }

  /** Every key that a query of any run has found was written. */
  lemma {:induction false} FoundIsOwed(steps: seq<Step>, p: nat)
    requires p in Run(steps).processes
    ensures FoundOwed(Run(steps).world, Run(steps).processes[p])
  {
    hide Owed, FoundOwed, Consistent, Advances, React, Knows, Reserved;
    var l := |steps| - 1;
    var before, last := steps[..l], steps[l];
    assert steps == before + [last];
    MomentAdvances(before, steps);
    if p in Run(before).processes {
      FoundIsOwed(before, p);
      if last.Act? && last.process == p {
        ReactFoundOwed(Run(before).world, p, Run(before).processes[p], last.action);
      }
      FoundOwedStill(Run(before).world, Run(steps).world, Run(steps).processes[p]);
    } else {
      NewFindsNothing(Run(steps).world, last.request);
    }
  }

  lemma NewFindsNothing(w: World, q: Process)
    requires IsNew(q)
    ensures FoundOwed(w, q)
  {
  }

  lemma ListingStep(w: World, p: nat, q: Process, a: Action, c: Uuid, k: Key)
    requires Consistent(w) && FoundOwed(w, q) && ToRemove(React(w, p, q, a).next, c, k)
    ensures ToRemove(q, c, k) || (q.DeleteQuerying? && q.chatId == c && a == Page(None, false) && Owed(w, c, k))
  {
    hide KeyLess, Owed, Consistent, FoundOwed;
    if q.DeleteQuerying? {
      KeyOrderIsTotal();
      var all := q.found + InOrder(PageKeys(w.table, q.chatId, q.cursor, None), KeyLess);
      var n := if |all| < BATCH then |all| else BATCH;
      assert all == all[..n] + all[n..];
      assert k in all;
      PageOwed(w, q, None, k);
    } else if q.DeleteRemoving? {
      var n := if |q.rest| < BATCH then |q.rest| else BATCH;
      assert q.rest == q.rest[..n] + q.rest[n..];
    }
  }

  /** What a delete is about to remove had been written when its last page was taken. */
  lemma {:induction false} LastPageListing(s: seq<Step>, p: nat, c: Uuid, k: Key) returns (steps: seq<Step>)
    requires p in Run(s).processes && ToRemove(Run(s).processes[p], c, k)
    ensures TookLastPage(steps, s, p, c) && Owed(Run(steps).world, c, k)
  {
    hide Owed, FoundOwed, Consistent, React, Knows, Reserved, ToRemove;
    var l := |s| - 1;
    var before, last := s[..l], s[l];
    assert s == before + [last];
    RunKeeps(before);
    if last.Act? && last.process == p {
      FoundIsOwed(before, p);
      ListingStep(Run(before).world, p, Run(before).processes[p], last.action, c, k);
      if !ToRemove(Run(before).processes[p], c, k) {
        return before;
      }
    } else if p !in Run(before).processes {
      NewRemovesNothing(last.request, c, k);
    }
    steps := LastPageListing(before, p, c, k);
  }

  lemma NewRemovesNothing(q: Process, c: Uuid, k: Key)
    requires IsNew(q)
    ensures !ToRemove(q, c, k)
  {
  }

  ghost predicate OrderedChat(w: World, c: Uuid) {
    c in w.logs && TiesOrdered(Turns(w.logs[c]))
  }

  lemma ListedIsRemoved(after: seq<Step>, c: Uuid, k: Key)
    requires OrderedChat(Run(after).world, c) && AllDone(after, c) && Listed(after, c, k) && k.chatId == c
    ensures k !in Run(after).world.table
  {
    var p, s :| ListedBy(p, s, after, c, k);
    RemovalProgress(p, s, after, c, k);
    var m :| s <= m <= after && k !in Run(m).world.table;
    var steps := LastPageListing(s, p, c, k);
    hide Owed, TiesOrdered, Advances, Consistent, Run;
    MomentAdvances(steps, m);
    MomentAdvances(m, after);
    OwedStill(Run(steps).world, Run(m).world, c, k);
    GoneForGood(Run(m).world, Run(after).world, c, k);
  }

  /** What any number of overlapping deletes leave: of all that the chat has had exactly what none of them listed. */
  lemma LeftTogether(after: seq<Step>, c: Uuid)
    requires OrderedChat(Run(after).world, c) && AllDone(after, c)
    ensures forall k: Key | k.chatId == c ::
              k in Run(after).world.table <==> Owed(Run(after).world, c, k) && !Listed(after, c, k)
  {
    hide Owed, OrderedChat, AllDone;
    RunKeeps(after);
    forall k: Key | k.chatId == c
      ensures k in Run(after).world.table <==> Owed(Run(after).world, c, k) && !Listed(after, c, k)
    {
      if Listed(after, c, k) {
        ListedIsRemoved(after, c, k);
      } else if Owed(Run(after).world, c, k) {
        KeptUnlessListed(after, c, k);
      }
      if k in Run(after).world.table { StoredIsOwed(Run(after).world, k); }
    }
  }

  // ----- when they leave nothing

  lemma OrderedBefore(earlier: Log, later: Log)
    requires earlier <= later && TiesOrdered(Turns(later))
    ensures TiesOrdered(Turns(earlier))
  {
    assert later[..|earlier|] == earlier;
    TurnsGrow(later, |earlier|);
    hide Turns;
    var a, b := Turns(earlier), Turns(later);
    forall i | 0 < i < |a| && a[i - 1].llm.sentAt == a[i].user.sentAt
      ensures a[i - 1].llm.requestId < a[i].user.requestId
    {
      assert a[i] == b[i] && a[i - 1] == b[i - 1];
    }
  }

  /** The last page lists every row there is. */
  lemma LastPageLists(steps: seq<Step>, after: seq<Step>, p: nat, c: Uuid, k: Key)
    requires TookLastPage(steps, after, p, c) && OrderedChat(Run(steps).world, c)
    requires k in Run(steps).world.table && k.chatId == c
    ensures Listed(after, c, k)
  {
    NothingMissed(steps, p, c);
    var w, q := Run(steps).world, Run(steps).processes[p];
    var page := steps + [Act(p, Page(None, false))];
    RunStep(steps, Act(p, Page(None, false)));
    hide Run, KeyLess;
    KeyOrderIsTotal();
    InOrderIsOrdered(PageKeys(w.table, c, q.cursor, None), KeyLess);
    var all := q.found + InOrder(PageKeys(w.table, c, q.cursor, None), KeyLess);
    assert k !in Missed(w.table, c, q.cursor, q.found);
    assert k in all;
    AllToRemove(q.user, c, q.begunAt, all, k);
    assert ListedBy(p, page, after, c, k);
  }

  lemma AllToRemove(user: Uuid, c: Uuid, n: nat, keys: seq<Key>, k: Key)
    requires k in keys
    ensures ToRemove(NextRemoving(user, c, n, keys), c, k)
  {
    var m := if |keys| < BATCH then |keys| else BATCH;
    assert keys == keys[..m] + keys[m..];
  }

  /** Some delete of c took its last page when nothing more was to be committed. */
  ghost predicate QuietAfterAPage(after: seq<Step>, c: Uuid) {
    exists steps, p :: TookLastPage(steps, after, p, c) && c in Run(after).world.logs && c in Run(steps).world.logs
                       && QuietSince(Run(after).world.logs[c], |Run(steps).world.logs[c]|)
  }

  lemma QuietMeansListed(steps: seq<Step>, after: seq<Step>, p: nat, c: Uuid, k: Key)
    requires TookLastPage(steps, after, p, c) && OrderedChat(Run(after).world, c) && c in Run(steps).world.logs
    requires QuietSince(Run(after).world.logs[c], |Run(steps).world.logs[c]|)
    requires k in Run(after).world.table && k.chatId == c
    ensures Listed(after, c, k)
  {
    hide Run, TiesOrdered, Consistent, Turns;
    MomentAdvances(steps, after);
    var w, v := Run(steps).world, Run(after).world;
    assert w.logs[c] <= v.logs[c];
    OrderedBefore(w.logs[c], v.logs[c]);
    if k !in w.table {
      AddedSince(w, v, c, k);
    }
    LastPageLists(steps, after, p, c, k);
  }

  /** The last answer of a history. */
  function LastAnswer(log: Log): Key
    requires Turns(log) != []
  {
    KeyOf(Turns(log)[|Turns(log)| - 1].llm)
  }

  lemma LastAnswerIsLast(log: Log)
    requires Good(log)
    ensures Turns(log) != [] && MessagesOf(log) != []
    ensures KeyOf(MessagesOf(log)[|MessagesOf(log)| - 1]) == LastAnswer(log)
    ensures LastAnswer(log).chatId == Replay(log).chatId
  {
    VersionCountsTurns(log);
    MessagesAlternate(Turns(log));
    GoodLogsChain(log);
    var n := |Turns(log)| - 1;
    assert MessagesOf(log)[2 * n + 1] == Turns(log)[n].llm;
  }

  /** When a part of an ordered history has its last answer, no exchange came after that part. */
  lemma QuietSinceAnswer(log: Log, n: nat)
    requires Good(log) && TiesOrdered(Turns(log)) && n <= |log| && Turns(log) != []
    requires LastAnswer(log) in KeysOf(MessagesOf(log[..n]))
    ensures QuietSince(log, n)
  {
    var ms := MessagesOf(log);
    LastAnswerIsLast(log);
    KeyPosition(MessagesOf(log[..n]), LastAnswer(log));
    var j :| 0 <= j < |MessagesOf(log[..n])| && KeyOf(MessagesOf(log[..n])[j]) == LastAnswer(log);
    hide MessagesOf, TiesOrdered, Turns, Good, LastAnswer;
    forall i | n <= i < |log| ensures !log[i].Exchanged? {
      if log[i].Exchanged? {
        LaterThanLast(log, n, i, j);
      }
    }
  }

  lemma LaterThanLast(log: Log, n: nat, i: nat, j: nat)
    requires Good(log) && TiesOrdered(Turns(log)) && n <= i < |log| && j < |MessagesOf(log[..n])|
    requires MessagesOf(log) != []
    requires KeyOf(MessagesOf(log[..n])[j]) == KeyOf(MessagesOf(log)[|MessagesOf(log)| - 1])
    ensures !log[i].Exchanged?
  {
    if log[i].Exchanged? {
      var k := KeyOf(log[i].user);
      assert Added(log, n, k);
      var b := AddedBehind(log, n, k);
      OrderedKeys(log);
      LogMessagesGrow(log[..n], log);
      hide MessagesOf, TiesOrdered, Turns, Good, Added;
      InTurn(KeysOf(MessagesOf(log)), j, |MessagesOf(log)| - 1);
    }
  }

  lemma LastAnswerOwed(v: World, c: Uuid)
    requires Consistent(v) && c in v.logs
    ensures Good(v.logs[c]) && Turns(v.logs[c]) != [] && LastAnswer(v.logs[c]).chatId == c
    ensures Owed(v, c, LastAnswer(v.logs[c]))
  {
    assert GoodLogOf(v, c);
    LastAnswerIsLast(v.logs[c]);
    KeyPosition(MessagesOf(v.logs[c]), LastAnswer(v.logs[c]));
  }

  lemma OwedMeansQuiet(w: World, v: World, c: Uuid)
    requires Advances(w, v) && OrderedChat(v, c) && Good(v.logs[c]) && Turns(v.logs[c]) != []
    requires LastAnswer(v.logs[c]).MessageKey? && Owed(w, c, LastAnswer(v.logs[c]))
    ensures c in w.logs && QuietSince(v.logs[c], |w.logs[c]|)
  {
    hide Good, TiesOrdered, Turns, MessagesOf, LastAnswer;
    assert w.logs[c] <= v.logs[c] && v.logs[c][..|w.logs[c]|] == w.logs[c];
    QuietSinceAnswer(v.logs[c], |w.logs[c]|);
  }

  lemma EmptyMeansQuiet(after: seq<Step>, c: Uuid)
    requires OrderedChat(Run(after).world, c) && AllDone(after, c) && Partition(Run(after).world.table, c) == {}
    ensures QuietAfterAPage(after, c)
  {
    RunKeeps(after);
    hide Run, Consistent, TiesOrdered, AllDone, Owed, QuietSince;
    var v := Run(after).world;
    LastAnswerOwed(v, c);
    var k := LastAnswer(v.logs[c]);
    LeftTogether(after, c);
    assert k !in Partition(v.table, c);
    var p, s :| ListedBy(p, s, after, c, k);
    var steps := LastPageListing(s, p, c, k);
    MomentAdvances(steps, after);
    OwedMeansQuiet(Run(steps).world, v, c);
    assert TookLastPage(steps, after, p, c);
  }

  /** Overlapping deletes that have all succeeded leave nothing exactly when one of them took its last page after
      the last exchange had been committed. */
  lemma NothingLeftTogether(after: seq<Step>, c: Uuid)
    requires OrderedChat(Run(after).world, c) && AllDone(after, c)
    ensures Partition(Run(after).world.table, c) == {} <==> QuietAfterAPage(after, c)
  {
    if Partition(Run(after).world.table, c) == {} {
      EmptyMeansQuiet(after, c);
    }
    if QuietAfterAPage(after, c) {
      var steps, p :| TookLastPage(steps, after, p, c) && c in Run(after).world.logs && c in Run(steps).world.logs
                      && QuietSince(Run(after).world.logs[c], |Run(steps).world.logs[c]|);
      LeftTogether(after, c);
      hide Run, OrderedChat, TookLastPage, Owed, Listed, QuietSince;
      forall k | k in Partition(Run(after).world.table, c) ensures false {
        QuietMeansListed(steps, after, p, c, k);
      }
    }
  }
}
