/** What a delete leaves behind: exactly the messages its query missed and those committed after its last page,
    and these then stay as they are. */
module Leftovers {
  import opened Text
  import opened Uuids
  import opened Sorting
  import opened Store
  import opened History
  import opened World
  import opened Protocol
  import opened Guarantees

  // ----- rows during the removal

  /** The rows of c are those still listed for removal, those kept, and those of turns committed since position m;
      what is listed is none of the others. */
  ghost predicate LeftExactly(w: World, c: Uuid, m: nat, listed: set<Key>, kept: set<Key>) {
    && c in w.logs && m <= |w.logs[c]|
    && (forall k: Key | k.chatId == c :: k in w.table <==> k in listed || k in kept || Added(w.logs[c], m, k))
    && (forall k | k in listed :: k.chatId == c && k !in kept && !Added(w.logs[c], m, k))
  }

  lemma AddedStep(log: Log, e: Event, m: nat, k: Key)
    requires m <= |log|
    ensures Added(log + [e], m, k) <==> Added(log, m, k) || (e.Exchanged? && (k == KeyOf(e.user) || k == KeyOf(e.llm)))
  {
    var longer := log + [e];
    assert longer[|log|] == e && forall i | 0 <= i < |log| :: longer[i] == log[i];
  }

  lemma ExchangeLeaves(w: World, write: Write, c: Uuid, m: nat, listed: set<Key>, kept: set<Key>)
    requires Legal(w, write) && LeftExactly(w, c, m, listed, kept) && write.PutExchange? && write.chat.chatId == c
    ensures LeftExactly(Perform(w, write), c, m, listed, kept)
  {
    var v := Perform(w, write);
    var e := Exchanged(write.process, write.loadedAt, write.user, write.llm);
    assert v.logs[c] == w.logs[c] + [e] && write.user.chatId == c && write.llm.chatId == c;
    assert v.table.Keys == w.table.Keys + {KeyOf(write.user), KeyOf(write.llm)};
    forall k: Key | k.chatId == c
      ensures Added(v.logs[c], m, k) <==> Added(w.logs[c], m, k) || k == KeyOf(write.user) || k == KeyOf(write.llm)
    {
      AddedStep(w.logs[c], e, m, k);
    }
    hide Added;
    forall k: Key | k.chatId == c ensures k in v.table <==> k in listed || k in kept || Added(v.logs[c], m, k) {
      assert k in w.table <==> k in listed || k in kept || Added(w.logs[c], m, k);
    }
  }

  lemma RenameLeaves(w: World, c: Uuid, title: string, m: nat, listed: set<Key>, kept: set<Key>)
    requires Legal(w, SetTitle(c, title)) && LeftExactly(w, c, m, listed, kept)
    ensures LeftExactly(Perform(w, SetTitle(c, title)), c, m, listed, kept)
  {
    var v := Perform(w, SetTitle(c, title));
    assert v.logs[c] == w.logs[c] + [Renamed(title)] && v.table.Keys == w.table.Keys;
    forall k: Key | k.chatId == c ensures Added(v.logs[c], m, k) <==> Added(w.logs[c], m, k) {
      AddedStep(w.logs[c], Renamed(title), m, k);
    }
  }

  predicate RemovesFrom(write: Write, c: Uuid) {
    write.Remove? && write.key.chatId == c
  }

  lemma ElsewhereLeaves(w: World, write: Write, c: Uuid, m: nat, listed: set<Key>, kept: set<Key>)
    requires Legal(w, write) && LeftExactly(w, c, m, listed, kept) && !WritesOnlyTo(write, c)
    ensures LeftExactly(Perform(w, write), c, m, listed, kept)
  {
    hide Added;
    ElsewhereUntouched(w, write, c);
    assert Perform(w, write).logs[c] == w.logs[c];
  }

  /** Any write but a removal from c leaves the account of its rows true. */
  lemma OtherWritesLeave(w: World, write: Write, c: Uuid, m: nat, listed: set<Key>, kept: set<Key>)
    requires Legal(w, write) && LeftExactly(w, c, m, listed, kept) && !RemovesFrom(write, c)
    ensures LeftExactly(Perform(w, write), c, m, listed, kept)
  {
    KnownChat(w, c, m, listed, kept);
    hide LeftExactly, Perform;
    if !WritesOnlyTo(write, c) {
      ElsewhereLeaves(w, write, c, m, listed, kept);
    } else if write.PutExchange? {
      ExchangeLeaves(w, write, c, m, listed, kept);
    } else if write.SetTitle? {
      RenameLeaves(w, c, write.title, m, listed, kept);
    }
  }

  lemma KnownChat(w: World, c: Uuid, m: nat, listed: set<Key>, kept: set<Key>)
    requires LeftExactly(w, c, m, listed, kept)
    ensures c in w.logs
  {
  }

  lemma RemovalLeaves(w: World, c: Uuid, m: nat, listed: set<Key>, kept: set<Key>, k: Key)
    requires LeftExactly(w, c, m, listed, kept) && k in listed
    ensures LeftExactly(Perform(w, Remove(k)), c, m, listed - {k}, kept)
  {
    hide Added;
  }

  // ----- the process

  /** The step takes a row of c away. */
  ghost predicate Removes(s: State, step: Step, c: Uuid) {
    step.Act? && step.process in s.processes &&
      RemovesFrom(React(s.world, step.process, s.processes[step.process], step.action).write, c)
  }

  /** From one point of the schedule to another nobody but process p takes rows of c away. */
  ghost predicate OthersSpare(p: nat, c: Uuid, from: seq<Step>, after: seq<Step>) {
    from <= after && forall i | |from| <= i < |after| && after[i].process != p :: !Removes(Run(after[..i]), after[i], c)
  }

  /** The removal of what was listed is underway or done, and the rows of c are fully accounted for. */
  ghost predicate Clearing(w: World, q: Process, c: Uuid, n: nat, m: nat, kept: set<Key>) {
    match q
    case DeleteRemoving(_, d, b, batch, rest) =>
      d == c && b == n && NoRepeats(rest) && batch !! Elements(rest) &&
        LeftExactly(w, c, m, batch + Elements(rest), kept)
    case Finished(_, DeleteDone(d, b)) => d == c && b == n && LeftExactly(w, c, m, {}, kept)
    case Finished(_, Failed(_)) => true
    case _ => false
  }

  lemma NextClearing(w: World, user: Uuid, c: Uuid, n: nat, m: nat, keys: seq<Key>, kept: set<Key>)
    requires NoRepeats(keys) && LeftExactly(w, c, m, Elements(keys), kept)
    ensures Clearing(w, NextRemoving(user, c, n, keys), c, n, m, kept)
  {
    hide LeftExactly;
    if keys == [] {
      assert Elements(keys) == {};
    } else {
      var k := if |keys| < BATCH then |keys| else BATCH;
      assert keys == keys[..k] + keys[k..];
      assert Elements(keys) == Elements(keys[..k]) + Elements(keys[k..]);
    }
  }

  lemma OwnStepClears(w: World, p: nat, q: Process, a: Action, c: Uuid, n: nat, m: nat, kept: set<Key>)
    requires Clearing(w, q, c, n, m, kept)
    ensures var e := React(w, p, q, a); Clearing(Perform(w, e.write), e.next, c, n, m, kept)
  {
    hide LeftExactly;
    if q.DeleteRemoving? {
      if a.RemoveOne? && a.key in q.batch {
        RemovalLeaves(w, c, m, q.batch + Elements(q.rest), kept, a.key);
        assert (q.batch - {a.key}) + Elements(q.rest) == (q.batch + Elements(q.rest)) - {a.key};
      } else if a.NextBatch? && q.batch == {} {
        assert q.batch + Elements(q.rest) == Elements(q.rest);
        NextClearing(w, q.user, c, n, m, q.rest, kept);
      }
    }
  }

  lemma OtherStepClears(w: World, write: Write, q: Process, c: Uuid, n: nat, m: nat, kept: set<Key>)
    requires Clearing(w, q, c, n, m, kept) && Legal(w, write) && !RemovesFrom(write, c)
    ensures Clearing(Perform(w, write), q, c, n, m, kept)
  {
    hide LeftExactly, Perform;
    match q
    case DeleteRemoving(_, _, _, batch, rest) => OtherWritesLeave(w, write, c, m, batch + Elements(rest), kept);
    case Finished(_, DeleteDone(_, _)) => OtherWritesLeave(w, write, c, m, {}, kept);
    case _ =>
  }

  lemma StepClears(s: State, step: Step, p: nat, c: Uuid, n: nat, m: nat, kept: set<Key>)
    requires Invariant(s) && p in s.processes && Clearing(s.world, s.processes[p], c, n, m, kept)
    requires step.process != p ==> !Removes(s, step, c)
    ensures var t := Apply(s, step); p in t.processes && Clearing(t.world, t.processes[p], c, n, m, kept)
  {
    hide Clearing, Perform;
    if step.Act? && step.process in s.processes {
      var r, a := step.process, step.action;
      if r == p {
        OwnStepClears(s.world, p, s.processes[p], a, c, n, m, kept);
      } else {
        ReactIsSound(s.world, r, s.processes[r], a);
        OtherStepClears(s.world, React(s.world, r, s.processes[r], a).write, s.processes[p], c, n, m, kept);
      }
    }
  }

  lemma {:induction false} RunClears(from: seq<Step>, after: seq<Step>, p: nat, c: Uuid, n: nat, m: nat, kept: set<Key>)
    requires OthersSpare(p, c, from, after)
    requires p in Run(from).processes && Clearing(Run(from).world, Run(from).processes[p], c, n, m, kept)
    ensures p in Run(after).processes && Clearing(Run(after).world, Run(after).processes[p], c, n, m, kept)
    decreases |after|
  {
    if |after| == |from| {
      assert after == from;
    } else {
      var l := |after| - 1;
      SpareBefore(p, c, from, after);
      RunClears(from, after[..l], p, c, n, m, kept);
      RunKeeps(after[..l]);
      StepClears(Run(after[..l]), after[l], p, c, n, m, kept);
    }
  }

  lemma SpareBefore(p: nat, c: Uuid, from: seq<Step>, after: seq<Step>)
    requires OthersSpare(p, c, from, after) && |from| < |after|
    ensures OthersSpare(p, c, from, after[..|after| - 1])
    ensures after[|after| - 1].process != p ==> !Removes(Run(after[..|after| - 1]), after[|after| - 1], c)
  {
    var before := after[..|after| - 1];
    forall i | |from| <= i < |before| && before[i].process != p ensures !Removes(Run(before[..i]), before[i], c) {
      assert before[..i] == after[..i] && before[i] == after[i];
    }
  }

  // ----- the query

  /** The keys found so far are those of the chat up to the cursor, each once and in order. */
  ghost predicate Found(found: seq<Key>, c: Uuid, cursor: Option<Key>) {
    Sorting.Ascending(found, KeyLess) && forall k | k in found ::
      k.chatId == c && cursor.Some? && !KeyLess(cursor.value, k)
  }

  lemma FoundExtends(found: seq<Key>, t: Table, c: Uuid, cursor: Option<Key>, upTo: Option<Key>)
    requires Found(found, c, cursor) && (cursor.Some? && upTo.Some? ==> KeyLess(cursor.value, upTo.value))
    ensures StrictTotal(KeyLess)
    ensures var more := found + InOrder(PageKeys(t, c, cursor, upTo), KeyLess);
            Sorting.Ascending(more, KeyLess) && AllIn(more, c) && (upTo.Some? ==> Found(more, c, upTo))
  {
    hide KeyLess;
    KeyOrderIsTotal();
    InOrderIsOrdered(PageKeys(t, c, cursor, upTo), KeyLess);
    var page := InOrder(PageKeys(t, c, cursor, upTo), KeyLess);
    forall h, k | h in found && k in page ensures KeyLess(h, k) {
      assert KeyLess(cursor.value, k);
      assert h == cursor.value || KeyLess(h, cursor.value);
    }
    assert forall i | 0 <= i < |found| :: found[i] in found;
    assert forall i | 0 <= i < |page| :: page[i] in page;
  }

  /** The query is underway, and what it found is all still there. */
  ghost predicate Querying(w: World, q: Process, c: Uuid, n: nat) {
    && q.DeleteQuerying? && q.chatId == c && q.begunAt == n
    && Found(q.found, c, q.cursor) && Elements(q.found) <= Partition(w.table, c)
  }

  /** Underway, or past its last page, or failed. */
  ghost predicate QueryingOrPast(w: World, q: Process, c: Uuid, n: nat) {
    Querying(w, q, c, n) || q.DeleteRemoving? || q.Finished?
  }

  lemma PageQueries(w: World, q: Process, c: Uuid, n: nat, upTo: Option<Key>, fault: bool)
    requires Querying(w, q, c, n)
    ensures QueryingOrPast(w, DeletePage(w, q, upTo, fault).next, c, n)
  {
    hide KeyLess;
    KeyOrderIsTotal();
    var page := PageKeys(w.table, c, q.cursor, upTo);
    InOrderIsOrdered(page, KeyLess);
    var more := q.found + InOrder(page, KeyLess);
    assert Elements(more) == Elements(q.found) + page;
    if q.cursor.Some? && upTo.Some? ==> KeyLess(q.cursor.value, upTo.value) {
      FoundExtends(q.found, w.table, c, q.cursor, upTo);
    }
  }

  lemma SparedRowsStay(w: World, write: Write, c: Uuid)
    requires Legal(w, write) && !RemovesFrom(write, c)
    ensures Partition(w.table, c) <= Partition(Perform(w, write).table, c)
  {
  }

  lemma StepQueries(s: State, step: Step, p: nat, c: Uuid, n: nat)
    requires Invariant(s) && p in s.processes && QueryingOrPast(s.world, s.processes[p], c, n)
    requires step.process != p ==> !Removes(s, step, c)
    ensures var t := Apply(s, step); p in t.processes && QueryingOrPast(t.world, t.processes[p], c, n)
  {
    hide QueryingOrPast, React, Perform, Legal;
    if step.Act? && step.process in s.processes {
      var r, a := step.process, step.action;
      var q := s.processes[p];
      if r == p {
        OwnStepQueries(s.world, p, q, a, c, n);
      } else {
        ReactIsSound(s.world, r, s.processes[r], a);
        OthersQuery(s.world, React(s.world, r, s.processes[r], a).write, q, c, n);
      }
    }
  }

  lemma OwnStepQueries(w: World, p: nat, q: Process, a: Action, c: Uuid, n: nat)
    requires QueryingOrPast(w, q, c, n)
    ensures var e := React(w, p, q, a); QueryingOrPast(Perform(w, e.write), e.next, c, n)
  {
    hide KeyLess, DeletePage, Found;
    if q.DeleteQuerying? && a.Page? {
      PageQueries(w, q, c, n, a.upTo, a.fault);
      PageWritesNothing(w, q, a.upTo, a.fault);
    }
  }

  lemma OthersQuery(w: World, write: Write, q: Process, c: Uuid, n: nat)
    requires QueryingOrPast(w, q, c, n) && Legal(w, write) && !RemovesFrom(write, c)
    ensures QueryingOrPast(Perform(w, write), q, c, n)
  {
    SparedRowsStay(w, write, c);
    hide Found, Legal, Perform;
  }

  lemma PageWritesNothing(w: World, q: Process, upTo: Option<Key>, fault: bool)
    requires q.DeleteQuerying?
    ensures DeletePage(w, q, upTo, fault).write == Nothing
  {
  }

  lemma {:induction false} RunQueries(begun: seq<Step>, steps: seq<Step>, p: nat, c: Uuid, n: nat)
    requires OthersSpare(p, c, begun, steps)
    requires p in Run(begun).processes && Querying(Run(begun).world, Run(begun).processes[p], c, n)
    ensures p in Run(steps).processes && QueryingOrPast(Run(steps).world, Run(steps).processes[p], c, n)
    decreases |steps|
  {
    if |steps| == |begun| {
      assert steps == begun;
    } else {
      var l := |steps| - 1;
      SpareBefore(p, c, begun, steps);
      hide OthersSpare, QueryingOrPast, Querying, Removes, Invariant;
      RunQueries(begun, steps[..l], p, c, n);
      RunKeeps(steps[..l]);
      StepQueries(Run(steps[..l]), steps[l], p, c, n);
    }
  }

  // ----- what is left

  /** The rows behind the cursor that no page listed: they came in when their page had been read. */
  function Missed(t: Table, c: Uuid, cursor: Option<Key>, found: seq<Key>): set<Key> {
    set k | k in t && k.chatId == c && k !in found && cursor.Some? && !KeyLess(cursor.value, k)
  }

  lemma AllListedOrMissed(w: World, q: Process, c: Uuid, n: nat, listed: set<Key>)
    requires c in w.logs && Querying(w, q, c, n) && listed == Elements(q.found) + PageKeys(w.table, c, q.cursor, None)
    ensures LeftExactly(w, c, |w.logs[c]|, listed, Missed(w.table, c, q.cursor, q.found))
  {
    hide KeyLess, Sorting.Ascending;
    forall k | k in Elements(q.found) ensures k in Partition(w.table, c) {
    }
  }

  lemma AscendingOnce(keys: seq<Key>)
    requires Sorting.Ascending(keys, KeyLess)
    ensures NoRepeats(keys)
  {
    KeyOrderIsTotal();
  }

  /** After its last page the delete has listed every row but those it missed. */
  lemma LastPage(w: World, q: Process, c: Uuid, n: nat)
    requires c in w.logs && Querying(w, q, c, n)
    ensures Clearing(w, DeletePage(w, q, None, false).next, c, n, |w.logs[c]|, Missed(w.table, c, q.cursor, q.found))
  {
    hide KeyLess, LeftExactly, Missed, NextRemoving, Clearing;
    KeyOrderIsTotal();
    var page := PageKeys(w.table, c, q.cursor, None);
    InOrderIsOrdered(page, KeyLess);
    var all := q.found + InOrder(page, KeyLess);
    FoundExtends(q.found, w.table, c, q.cursor, None);
    AscendingOnce(all);
    assert Elements(all) == Elements(q.found) + page;
    AllListedOrMissed(w, q, c, n, Elements(all));
    NextClearing(w, q.user, c, n, |w.logs[c]|, all, Missed(w.table, c, q.cursor, q.found));
  }

  /** A run of process p's delete of c up to its success, with its last page taken in the state of steps, in which
      nobody else takes rows of c away. */
  ghost predicate DeletesAlongside(begun: seq<Step>, steps: seq<Step>, after: seq<Step>, p: nat, c: Uuid, n: nat) {
    && begun <= steps && steps + [Act(p, Page(None, false))] <= after && OthersSpare(p, c, begun, after)
    && p in Run(begun).processes && Fresh(Run(begun).processes[p], c, n)
    && p in Run(steps).processes && Run(steps).processes[p].DeleteQuerying?
    && p in Run(after).processes && Run(after).processes[p].Finished? &&
       Run(after).processes[p].outcome == DeleteDone(c, n)
  }

  /** The query is about to take its first page. */
  predicate Fresh(q: Process, c: Uuid, n: nat) {
    q.DeleteQuerying? && q.chatId == c && q.begunAt == n && q.cursor == None && q.found == []
  }

  lemma SpareBetween(p: nat, c: Uuid, begun: seq<Step>, steps: seq<Step>, after: seq<Step>)
    requires OthersSpare(p, c, begun, after) && begun <= steps <= after
    ensures OthersSpare(p, c, begun, steps) && OthersSpare(p, c, steps, after)
  {
    forall i | |begun| <= i < |steps| && steps[i].process != p ensures !Removes(Run(steps[..i]), steps[i], c) {
      assert steps[..i] == after[..i] && steps[i] == after[i];
    }
  }

  lemma QueryAtLastPage(begun: seq<Step>, steps: seq<Step>, p: nat, c: Uuid, n: nat)
    requires OthersSpare(p, c, begun, steps) && p in Run(begun).processes && Fresh(Run(begun).processes[p], c, n)
    requires p in Run(steps).processes && Run(steps).processes[p].DeleteQuerying?
    ensures Querying(Run(steps).world, Run(steps).processes[p], c, n) && c in Run(steps).world.logs
  {
    assert Elements(Run(begun).processes[p].found) == {};
    RunQueries(begun, steps, p, c, n);
    RunKeeps(steps);
    assert Knows(Run(steps).world, p, Run(steps).processes[p]);
  }

  predicate PastQuery(q: Process, c: Uuid, n: nat) {
    || (q.DeleteRemoving? && q.chatId == c && q.begunAt == n)
    || (q.Finished? && q.outcome == DeleteDone(c, n))
  }

  predicate InQuery(q: Process, c: Uuid, n: nat) {
    q.DeleteQuerying? && q.chatId == c && q.begunAt == n
  }

  lemma PastQueryFrom(w: World, p: nat, q: Process, a: Action, c: Uuid, n: nat)
    requires PastQuery(React(w, p, q, a).next, c, n)
    ensures PastQuery(q, c, n) || (InQuery(q, c, n) && a == Page(None, false))
  {
  }

  lemma InQueryFrom(w: World, p: nat, q: Process, a: Action, c: Uuid, n: nat)
    requires InQuery(React(w, p, q, a).next, c, n)
    ensures InQuery(q, c, n) || Fresh(React(w, p, q, a).next, c, n)
  {
  }

  lemma {:induction false} LastPageOf(after: seq<Step>, p: nat, c: Uuid, n: nat) returns (steps: seq<Step>)
    requires p in Run(after).processes && PastQuery(Run(after).processes[p], c, n)
    ensures steps + [Act(p, Page(None, false))] <= after && p in Run(steps).processes
    ensures InQuery(Run(steps).processes[p], c, n)
  {
    var l := |after| - 1;
    var before, last := after[..l], after[l];
    assert after == before + [last];
    if last.Act? && last.process == p {
      PastQueryFrom(Run(before).world, p, Run(before).processes[p], last.action, c, n);
      if InQuery(Run(before).processes[p], c, n) {
        return before;
      }
    }
    steps := LastPageOf(before, p, c, n);
  }

  lemma {:induction false} FirstPageOf(steps: seq<Step>, p: nat, c: Uuid, n: nat) returns (begun: seq<Step>)
    requires p in Run(steps).processes && InQuery(Run(steps).processes[p], c, n)
    ensures begun <= steps && p in Run(begun).processes && Fresh(Run(begun).processes[p], c, n)
  {
    if Fresh(Run(steps).processes[p], c, n) {
      return steps;
    }
    var l := |steps| - 1;
    var before, last := steps[..l], steps[l];
    assert steps == before + [last];
    if last.Act? && last.process == p {
      InQueryFrom(Run(before).world, p, Run(before).processes[p], last.action, c, n);
    }
    begun := FirstPageOf(before, p, c, n);
  }

  /** Every successful delete of every run has a first and a last page. */
  lemma EveryDeleteQueries(after: seq<Step>, p: nat, c: Uuid, n: nat) returns (begun: seq<Step>, steps: seq<Step>)
    requires p in Run(after).processes && Run(after).processes[p].Finished?
    requires Run(after).processes[p].outcome == DeleteDone(c, n)
    ensures OthersSpare(p, c, begun, after) ==> DeletesAlongside(begun, steps, after, p, c, n)
    ensures begun <= steps && steps + [Act(p, Page(None, false))] <= after
    ensures p in Run(begun).processes && Fresh(Run(begun).processes[p], c, n)
  {
    steps := LastPageOf(after, p, c, n);
    begun := FirstPageOf(steps, p, c, n);
  }

  /** What a successful delete leaves behind: the rows its pages missed, and the messages of the exchanges committed
      since its last page. */
  lemma LeftBehind(begun: seq<Step>, steps: seq<Step>, after: seq<Step>, p: nat, c: Uuid, n: nat)
    requires DeletesAlongside(begun, steps, after, p, c, n)
    ensures var w, v, q := Run(steps).world, Run(after).world, Run(steps).processes[p];
            && c in w.logs && c in v.logs && |w.logs[c]| <= |v.logs[c]|
            && forall k: Key | k.chatId == c ::
                 k in v.table <==> k in Missed(w.table, c, q.cursor, q.found) || Added(v.logs[c], |w.logs[c]|, k)
  {
    var page := steps + [Act(p, Page(None, false))];
    var w, q := Run(steps).world, Run(steps).processes[p];
    SpareBetween(p, c, begun, steps, after);
    SpareBetween(p, c, begun, page, after);
    QueryAtLastPage(begun, steps, p, c, n);
    LastPage(w, q, c, n);
    RunStep(steps, Act(p, Page(None, false)));
    PageWritesNothing(w, q, None, false);
    hide Clearing, Missed, OthersSpare, DeletePage, Fresh, Querying;
    RunClears(page, after, p, c, n, |w.logs[c]|, Missed(w.table, c, q.cursor, q.found));
    Cleared(Run(after).world, Run(after).processes[p], c, n, |w.logs[c]|, Missed(w.table, c, q.cursor, q.found));
  }

  lemma Cleared(v: World, q: Process, c: Uuid, n: nat, m: nat, kept: set<Key>)
    requires Clearing(v, q, c, n, m, kept) && q.Finished? && q.outcome == DeleteDone(c, n)
    ensures c in v.logs && m <= |v.logs[c]|
    ensures forall k: Key | k.chatId == c :: k in v.table <==> k in kept || Added(v.logs[c], m, k)
  {
  }

  /** A successful delete leaves nothing exactly when its pages missed nothing and no exchange was committed since
      its last page. A query of one page misses nothing. */
  lemma LeavesNothing(begun: seq<Step>, steps: seq<Step>, after: seq<Step>, p: nat, c: Uuid, n: nat)
    requires DeletesAlongside(begun, steps, after, p, c, n)
    ensures var w, v, q := Run(steps).world, Run(after).world, Run(steps).processes[p];
            var missed := Missed(w.table, c, q.cursor, q.found);
            && c in w.logs && c in v.logs
            && (Partition(v.table, c) == {} <==> missed == {} && forall i | |w.logs[c]| <= i < |v.logs[c]| ::
                 !v.logs[c][i].Exchanged?)
            && (q.cursor.None? ==> missed == {})
  {
    LeftBehind(begun, steps, after, p, c, n);
    RunKeeps(after);
    NothingLeft(Run(after).world, c, |Run(steps).world.logs[c]|,
                Missed(Run(steps).world.table, c, Run(steps).processes[p].cursor, Run(steps).processes[p].found));
  }

  lemma NothingLeft(v: World, c: Uuid, m: nat, missed: set<Key>)
    requires Consistent(v) && c in v.logs && m <= |v.logs[c]| && forall k | k in missed :: k.chatId == c
    requires forall k: Key | k.chatId == c :: k in v.table <==> k in missed || Added(v.logs[c], m, k)
    ensures Partition(v.table, c) == {} <==> missed == {} && forall i | m <= i < |v.logs[c]| :: !v.logs[c][i].Exchanged?
  {
    var log := v.logs[c];
    forall k | k in missed ensures k in Partition(v.table, c) {
    }
    forall i | m <= i < |log| && log[i].Exchanged? ensures KeyOf(log[i].user) in Partition(v.table, c) {
      CommittedIsOf(v, c, i);
      assert Added(log, m, KeyOf(log[i].user));
    }
  }

  lemma CommittedIsOf(v: World, c: Uuid, i: nat)
    requires Consistent(v) && c in v.logs && i < |v.logs[c]| && v.logs[c][i].Exchanged?
    ensures v.logs[c][i].user.chatId == c
  {
    assert GoodLogOf(v, c);
    GoodEvent(v.logs[c], i);
    IdentityKept(v.logs[c], i);
    IdentityKept(v.logs[c][..i], v.logs[c][i].loadedAt);
  }

  // ----- after the removal

  /** A delete of c between its load and its end. */
  predicate Deleting(q: Process, c: Uuid) {
    (q.DeleteQuerying? || q.DeleteRemoving?) && q.chatId == c
  }

  /** No delete of c is underway. */
  predicate NoneDeleting(s: State, c: Uuid) {
    forall p | p in s.processes :: !Deleting(s.processes[p], c)
  }

  lemma RefusedWhenGone(w: World, p: nat, q: Process, a: Action, c: Uuid)
    requires Gone(w, c) && Knows(w, p, q) && !Deleting(q, c)
    ensures !Deleting(React(w, p, q, a).next, c) && !RemovesFrom(React(w, p, q, a).write, c)
  {
    hide KeyLess, Swept, SweptAll, Owned, Snapshot, CommittedBy, GoodStart;
  }

  lemma StaysRefused(s: State, step: Step, c: Uuid)
    requires Invariant(s) && Gone(s.world, c) && NoneDeleting(s, c)
    ensures NoneDeleting(Apply(s, step), c) && !Removes(s, step, c)
  {
    hide React, Knows, Perform, Consistent, Reserved, Gone;
    if step.Act? && step.process in s.processes {
      RefusedWhenGone(s.world, step.process, s.processes[step.process], step.action, c);
    }
  }

  /** Once a chat row is gone and no delete of the chat is underway, what is left in its partition never changes
      again: every later delete is refused at its load. */
  lemma {:induction false} RestIsSettled(steps: seq<Step>, more: seq<Step>, c: Uuid)
    requires Gone(Run(steps).world, c) && NoneDeleting(Run(steps), c)
    ensures NoneDeleting(Run(steps + more), c)
    ensures var t, u := Run(steps).world.table, Run(steps + more).world.table;
            forall k: Key | k.chatId == c :: (k in t <==> k in u) && (k in t ==> u[k] == t[k])
  {
    if more == [] {
      assert steps + more == steps;
    } else {
      var l := |more| - 1;
      var here := steps + more[..l];
      assert steps + more == here + [more[l]];
      RestIsSettled(steps, more[..l], c);
      GoneStaysGone(steps, more[..l], c);
      RunKeeps(here);
      RunStep(here, more[l]);
      StaysRefused(Run(here), more[l], c);
      SettledStep(Run(here), more[l], c);
    }
  }

  lemma SettledStep(s: State, step: Step, c: Uuid)
    requires Invariant(s) && Gone(s.world, c) && !Removes(s, step, c)
    ensures var t, u := s.world.table, Apply(s, step).world.table;
            forall k: Key | k.chatId == c :: (k in t <==> k in u) && (k in t ==> u[k] == t[k])
  {
    StepKeeps(s, step);
    hide React, Perform, Knows;
    if step.Act? && step.process in s.processes {
      ReactIsSound(s.world, step.process, s.processes[step.process], step.action);
      SparedRowsStay(s.world, React(s.world, step.process, s.processes[step.process], step.action).write, c);
      SamePartition(s.world, Apply(s, step).world, c);
    }
  }

  lemma SamePartition(w: World, v: World, c: Uuid)
    requires Gone(w, c) && Advances(w, v) && Partition(w.table, c) <= Partition(v.table, c)
    ensures forall k: Key | k.chatId == c ::
              (k in w.table <==> k in v.table) && (k in w.table ==> v.table[k] == w.table[k])
  {
    forall k: Key | k.chatId == c && k in w.table ensures k in v.table {
      assert k in Partition(w.table, c);
    }
  }
}
