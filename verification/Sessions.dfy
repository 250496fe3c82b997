/** One client that waits for each of its requests: what the state machine does with such a request alone is what the
    client follows, so the list it keeps through a session is what a fresh fetch would give. */
module Sessions {
  import opened Uuids
  import opened Domain
  import opened Store
  import opened History
  import opened World
  import opened Protocol
  import opened Guarantees
  import opened Schedules
  import Client
  import Reading

  predicate Carries(before: Table, now: Table, u: Uuid, op: Client.Op) {
    Client.Admitted(before, u, op) && now == Client.Serve(before, op)
  }

  /** How far the request has got, for the table before it. */
  ghost predicate Phase(before: Table, w: World, q: Process) {
    match q
    case DeleteQuerying(u, c, _, _, _) => RenameAccepted(before, c, u)
    case DeleteRemoving(u, c, _, _, _) => RenameAccepted(before, c, u)
    case Finished(u, DeleteDone(c, _)) => RenameAccepted(before, c, u)
    case Finished(_, Failed(_)) => true
    case Finished(u, _) => exists op: Client.Op :: !op.Deleted? && Carries(before, w.table, u, op)
    case _ => w.table == before
  }

  lemma SaveCarries(before: Table, w: World, p: nat, q: Process, fault: bool)
    requires Phase(before, w, q) && Knows(w, p, q) && (q.StartReady? || q.ContinueReady?)
    ensures var e := if q.StartReady? then StartCommitted(w, q, fault) else ContinueCommitted(w, p, q, fault);
            Phase(before, Perform(w, e.write), e.next)
  {
    hide Snapshot, ContinuableAt, GoodStart, StorableMessage, PutTurn, ExchangeAccepted, StartAccepted;
    if q.StartReady? {
      StartIsPair(q);
      var e := StartCommitted(w, q, fault);
      if e.write.PutStart? {
        assert Carries(before, Perform(w, e.write).table, q.user, Client.Started(q.chat, q.question, q.answer));
      }
    } else {
      var e := ContinueCommitted(w, p, q, fault);
      if e.write.PutExchange? {
        assert Carries(before, Perform(w, e.write).table, q.user, Client.Continued(q.chat, q.question, q.answer));
      }
    }
  }

  lemma StartIsPair(q: Process)
    requires q.StartReady? && GoodStart(Started(q.chat, q.question, q.answer))
    ensures IsTurnPair(q.chat.chatId, q.question, q.answer)
  {
  }

  lemma RenameCarries(before: Table, w: World, q: Process, fault: bool)
    requires Phase(before, w, q) && q.RenameNew?
    ensures var e := RenameCommitted(w, q, fault); Phase(before, Perform(w, e.write), e.next)
  {
    var e := RenameCommitted(w, q, fault);
    if e.write.SetTitle? {
      assert Carries(before, Perform(w, e.write).table, q.user, Client.RenamedTo(q.chatId, q.title));
    }
  }

  lemma DeletePhase(before: Table, w: World, p: nat, q: Process, a: Action)
    requires Phase(before, w, q) && (q.DeleteNew? || q.DeleteQuerying? || q.DeleteRemoving?)
    ensures var e := React(w, p, q, a); Phase(before, Perform(w, e.write), e.next)
  {
    hide KeyLess, PageKeys;
  }

  lemma ReactPhase(before: Table, w: World, p: nat, q: Process, a: Action)
    requires Phase(before, w, q) && Knows(w, p, q)
    ensures var e := React(w, p, q, a); Phase(before, Perform(w, e.write), e.next)
  {
    if (q.StartReady? || q.ContinueReady?) && a.Commit? {
      SaveCarries(before, w, p, q, a.fault);
    } else if q.RenameNew? && a.Commit? {
      RenameCarries(before, w, q, a.fault);
    } else if q.DeleteNew? || q.DeleteQuerying? || q.DeleteRemoving? {
      DeletePhase(before, w, p, q, a);
    } else {
      WaitingPhase(before, w, p, q, a);
    }
  }

  lemma WaitingPhase(before: Table, w: World, p: nat, q: Process, a: Action)
    requires Phase(before, w, q) && !q.DeleteNew? && !q.DeleteQuerying? && !q.DeleteRemoving?
    requires q.StartReady? || q.ContinueReady? || q.RenameNew? ==> !a.Commit?
    ensures var e := React(w, p, q, a); Phase(before, Perform(w, e.write), e.next)
  {
    hide CreateChat, RecordExchange, StartedTurnError, ContinuableAt, TitleFromPrompt, Carries;
  }

  lemma AloneAtOnce(p: nat, steps: seq<Step>, after: seq<Step>)
    requires RunsAlone(p, steps, after) && |after| == |steps|
    ensures after == steps
  {
  }

  lemma AloneLength(p: nat, steps: seq<Step>, after: seq<Step>)
    requires RunsAlone(p, steps, after)
    ensures |steps| <= |after|
  {
  }

  lemma AloneBefore(p: nat, steps: seq<Step>, after: seq<Step>)
    requires RunsAlone(p, steps, after) && |steps| < |after|
    ensures var l := |after| - 1;
            && RunsAlone(p, steps, after[..l]) && after[l].process == p
            && (l > |steps| ==> after[l].Act?) && (l == |steps| ==> after[..l] == steps)
  {
  }

  lemma RunLast(steps: seq<Step>)
    requires steps != []
    ensures Run(steps) == Apply(Run(steps[..|steps| - 1]), steps[|steps| - 1])
  {
  }

  lemma {:induction false} RunPhase(p: nat, steps: seq<Step>, after: seq<Step>)
    requires RunsAlone(p, steps, after) && p !in Run(steps).processes
    ensures var s := Run(after);
            if p in s.processes then Phase(Run(steps).world.table, s.world, s.processes[p])
            else s.world.table == Run(steps).world.table
    decreases |after|
  {
    if |after| == |steps| {
      AloneAtOnce(p, steps, after);
    } else {
      var l := |after| - 1;
      AloneBefore(p, steps, after);
      RunLast(after);
      hide Run, RunsAlone, Phase, React, Knows, Perform, Consistent, Reserved;
      RunPhase(p, steps, after[..l]);
      RunKeeps(after[..l]);
      var s := Run(after[..l]);
      if after[l].Act? {
        if p in s.processes {
          assert Knows(s.world, p, s.processes[p]);
          ReactPhase(Run(steps).world.table, s.world, p, s.processes[p], after[l].action);
        }
      } else {
        ArrivalPhase(Run(steps).world.table, s.world, after[l].request);
      }
    }
  }

  lemma ArrivalPhase(before: Table, w: World, q: Process)
    ensures IsNew(q) && w.table == before ==> Phase(before, w, q)
  {
  }

  // ----- deletes

  predicate IsDelete(q: Process, u: Uuid, c: Uuid) {
    q.user == u && ((q.DeleteNew? && q.chatId == c) || (q.DeleteQuerying? && q.chatId == c)
                    || (q.DeleteRemoving? && q.chatId == c) ||
                       (q.Finished? && q.outcome.DeleteDone? && q.outcome.chatId == c))
  }

  lemma WasDelete(w: World, p: nat, q: Process, a: Action, u: Uuid, c: Uuid)
    requires IsDelete(React(w, p, q, a).next, u, c)
    ensures IsDelete(q, u, c)
  {
    hide KeyLess, PageKeys;
  }

  lemma NewDelete(step: Step, u: Uuid, c: Uuid)
    ensures step.Arrive? && IsNew(step.request) && IsDelete(step.request, u, c) ==> step.request.DeleteNew?
  {
  }

  lemma DeleteBefore(p: nat, steps: seq<Step>, after: seq<Step>, u: Uuid, c: Uuid)
    requires RunsAlone(p, steps, after) && p !in Run(steps).processes && p in Run(after).processes
    requires IsDelete(Run(after).processes[p], u, c) && !Run(after).processes[p].DeleteNew?
    ensures |steps| < |after| && after[|after| - 1].Act? && RunsAlone(p, steps, after[..|after| - 1])
    ensures var s := Run(after[..|after| - 1]); p in s.processes && IsDelete(s.processes[p], u, c)
  {
    hide Run, RunsAlone, React, Perform, IsDelete;
    AloneLength(p, steps, after);
    if |after| == |steps| {
      AloneAtOnce(p, steps, after);
    } else {
      var l := |after| - 1;
      AloneBefore(p, steps, after);
      RunLast(after);
      var s := Run(after[..l]);
      NewDelete(after[l], u, c);
      if after[l].Act? && p in s.processes {
        WasDelete(s.world, p, s.processes[p], after[l].action, u, c);
      }
    }
  }

  /** Where a delete that ran alone began. */
  lemma {:induction false} DeleteBegan(p: nat, steps: seq<Step>, after: seq<Step>, u: Uuid, c: Uuid)
    returns (mid: seq<Step>)
    requires RunsAlone(p, steps, after) && p !in Run(steps).processes
    requires p in Run(after).processes && IsDelete(Run(after).processes[p], u, c)
    ensures OnlyBy(p, mid, after) && p in Run(mid).processes && Run(mid).processes[p] == DeleteNew(u, c)
    ensures Run(mid).world.table == Run(steps).world.table
    decreases |after|
  {
    hide Run;
    if Run(after).processes[p].DeleteNew? {
      RunPhase(p, steps, after);
      return after;
    }
    DeleteBefore(p, steps, after, u, c);
    mid := DeleteBegan(p, steps, after[..|after| - 1], u, c);
  }

  /** A request that ran alone and succeeded did to the table what the client follows. */
  lemma RequestIsCarried(p: nat, steps: seq<Step>, after: seq<Step>) returns (op: Client.Op)
    requires RunsAlone(p, steps, after) && p !in Run(steps).processes
    requires p in Run(after).processes && Run(after).processes[p].Finished? && !Run(after).processes[p].outcome.Failed?
    ensures Carries(Run(steps).world.table, Run(after).world.table, Run(after).processes[p].user, op)
  {
    RunPhase(p, steps, after);
    var t, q := Run(steps).world.table, Run(after).processes[p];
    if q.outcome.DeleteDone? {
      var c := q.outcome.chatId;
      var mid := DeleteBegan(p, steps, after, q.user, c);
      DeleteAlone(mid, after, p, c, q.user);
      op := Client.Deleted(c);
    } else {
      op :| !op.Deleted? && Carries(t, Run(after).world.table, q.user, op);
    }
  }

  // ----- sessions

  /** The client's requests one after the other: each ran alone from one moment to the next, succeeded, and had an
      answer later than every answer before. */
  ghost predicate Session(moments: seq<seq<Step>>, u: Uuid, ops: seq<Client.Op>) {
    && |moments| == |ops| + 1
    && forall i | 0 <= i < |ops| :: Visit(moments[i], moments[i + 1], u, ops[i])
  }

  ghost predicate Visit(steps: seq<Step>, after: seq<Step>, u: Uuid, op: Client.Op) {
    Carries(Run(steps).world.table, Run(after).world.table, u, op) && Client.InTime(Run(steps).world.table, u, op)
  }

  lemma SessionBefore(moments: seq<seq<Step>>, u: Uuid, ops: seq<Client.Op>)
    requires Session(moments, u, ops) && ops != []
    ensures var n := |ops| - 1; Session(moments[..n + 1], u, ops[..n]) && Visit(moments[n], moments[n + 1], u, ops[n])
  {
    hide Visit;
    var n := |ops| - 1;
    var earlier := moments[..n + 1];
    forall i | 0 <= i < n ensures Visit(earlier[i], earlier[i + 1], u, ops[..n][i]) {
      assert Visit(moments[i], moments[i + 1], u, ops[i]);
    }
  }

  lemma {:induction false} SessionServes(moments: seq<seq<Step>>, u: Uuid, ops: seq<Client.Op>)
    requires Session(moments, u, ops)
    ensures Client.AllSucceed(Run(moments[0]).world.table, u, ops)
    ensures Run(moments[|ops|]).world.table == Client.ServeAll(Run(moments[0]).world.table, ops)
  {
    if ops != [] {
      var n := |ops| - 1;
      hide Run, Client.Admitted, Client.Serve, Client.InTime;
      SessionBefore(moments, u, ops);
      SessionServes(moments[..n + 1], u, ops[..n]);
    }
  }

  /** Through a whole session the list that began with a fetch is what a fresh fetch would give. */
  lemma SessionStaysFresh(moments: seq<seq<Step>>, u: Uuid, ops: seq<Client.Op>, chats: seq<Client.ClientChat>)
    requires Session(moments, u, ops) && Client.IsFetch(chats, Run(moments[0]).world.table, u)
    ensures Client.IsFetch(Client.FollowAll(chats, ops), Run(moments[|ops|]).world.table, u)
  {
    hide Client.IsFetch, Client.FollowAll;
    RunKeeps(moments[0]);
    Reading.RowsUnderTheirKeys(Run(moments[0]).world);
    SessionServes(moments, u, ops);
    Client.ListStaysFresh(chats, Run(moments[0]).world.table, u, ops);
  }
}
