/** One request in a schedule: the steps it takes, what each of its own steps does, and the whole of them. */
module Schedules {
  import opened Time
  import opened Uuids
  import opened Domain
  import opened Store
  import opened World
  import opened Protocol

  /** The steps of one process in a schedule. */
  function Own(p: nat, steps: seq<Step>): seq<Step> {
    if steps == [] then []
    else Own(p, steps[..|steps| - 1]) + (if steps[|steps| - 1].process == p then [steps[|steps| - 1]] else [])
  }

  lemma OwnStep(p: nat, steps: seq<Step>, step: Step)
    ensures Own(p, steps + [step]) == Own(p, steps) + (if step.process == p then [step] else [])
  {
    assert (steps + [step])[..|steps|] == steps;
  }

  /** From steps to after one request arrived and ran, and nothing else did. */
  predicate RunsAlone(p: nat, steps: seq<Step>, after: seq<Step>) {
    steps <= after && forall i | |steps| <= i < |after| :: after[i].process == p && (i > |steps| ==> after[i].Act?)
  }

  /** All that happened from steps to after was done by process p. */
  predicate OnlyBy(p: nat, steps: seq<Step>, after: seq<Step>) {
    steps <= after && forall i | |steps| <= i < |after| :: after[i].Act? && after[i].process == p
  }

  /** All from begun on was done by p, when it is alone. */
  predicate Since(p: nat, alone: bool, begun: seq<Step>, after: seq<Step>) {
    begun <= after && (alone ==> OnlyBy(p, begun, after))
  }

  lemma SinceStart(p: nat, alone: bool, steps: seq<Step>)
    ensures Since(p, alone, steps, steps)
  {
  }

  lemma SinceActed(p: nat, alone: bool, begun: seq<Step>, after: seq<Step>, a: Action)
    requires Since(p, alone, begun, after)
    ensures Since(p, alone, begun, after + [Act(p, a)])
  {
  }

  lemma AloneArrived(p: nat, steps: seq<Step>, q: Process)
    ensures RunsAlone(p, steps, steps + [Arrive(p, q)])
  {
  }

  lemma AloneActed(p: nat, alone: bool, steps: seq<Step>, after: seq<Step>, a: Action)
    requires alone ==> RunsAlone(p, steps, after)
    ensures alone ==> RunsAlone(p, steps, after + [Act(p, a)])
  {
  }

  /** A process that has taken no step does not exist. */
  lemma {:induction false} NotYet(p: nat, steps: seq<Step>)
    requires Own(p, steps) == []
    ensures p !in Run(steps).processes
  {
    if steps != [] {
      NotYet(p, steps[..|steps| - 1]);
    }
  }

  ghost predicate At(steps: seq<Step>, p: nat, q: Process) {
    p in Run(steps).processes && Run(steps).processes[p] == q
  }

  /** One action of the process, seen from outside. */
  lemma Acted(steps: seq<Step>, p: nat, q: Process, a: Action)
    requires At(steps, p, q)
    ensures var e := React(Run(steps).world, p, q, a);
            At(steps + [Act(p, a)], p, e.next) && Run(steps + [Act(p, a)]).world == Perform(Run(steps).world, e.write)
    ensures Own(p, steps + [Act(p, a)]) == Own(p, steps) + [Act(p, a)]
  {
    OwnStep(p, steps, Act(p, a));
    RunStep(steps, Act(p, a));
  }

  lemma Arrived(steps: seq<Step>, p: nat, q: Process)
    requires Own(p, steps) == [] && IsNew(q)
    ensures At(steps + [Arrive(p, q)], p, q) && Run(steps + [Arrive(p, q)]).world == Run(steps).world
    ensures Own(p, steps + [Arrive(p, q)]) == [Arrive(p, q)]
  {
    NotYet(p, steps);
    OwnStep(p, steps, Arrive(p, q));
    RunStep(steps, Arrive(p, q));
  }

  /** The clock reading and the expiry check of a continuation. */
  lemma Asked(steps: seq<Step>, p: nat, q: Process, now: Instant)
    requires q.ContinueLoaded? && At(steps, p, q)
    ensures At(steps + [Act(p, ReadClock(now))], p, ContinueClock(q, now).next)
    ensures Run(steps + [Act(p, ReadClock(now))]).world.table == Run(steps).world.table
    ensures Own(p, steps + [Act(p, ReadClock(now))]) == Own(p, steps) + [Act(p, ReadClock(now))]
  {
    Acted(steps, p, q, ReadClock(now));
  }

  /** The answer of the generator and the aggregate's verdict on the turn. */
  lemma Answered(steps: seq<Step>, p: nat, q: Process, g: Generated, now: Instant)
    requires q.ContinueAsked? && At(steps, p, q)
    ensures At(steps + [Act(p, Generate(g, now, 0))], p, ContinueGenerated(q, g, now).next)
    ensures Run(steps + [Act(p, Generate(g, now, 0))]).world.table == Run(steps).world.table
    ensures Own(p, steps + [Act(p, Generate(g, now, 0))]) == Own(p, steps) + [Act(p, Generate(g, now, 0))]
  {
    Acted(steps, p, q, Generate(g, now, 0));
  }

  /** The clock reading of a start. */
  lemma StartAskedAt(steps: seq<Step>, p: nat, q: Process, now: Instant)
    requires q.StartNew? && At(steps, p, q)
    ensures At(steps + [Act(p, ReadClock(now))], p, StartAsked(q.user, q.requestId, q.prompt, now))
    ensures Run(steps + [Act(p, ReadClock(now))]).world == Run(steps).world
    ensures Own(p, steps + [Act(p, ReadClock(now))]) == Own(p, steps) + [Act(p, ReadClock(now))]
  {
    hide Run, Own;
    Acted(steps, p, q, ReadClock(now));
  }

  /** The answer of the generator to a start, and the verdict on its turn. */
  lemma StartAnswered(steps: seq<Step>, p: nat, q: Process, g: Generated, now: Instant, id: Uuid)
    requires q.StartAsked? && At(steps, p, q) && id !in Run(steps).world.issued
    ensures At(steps + [Act(p, Generate(g, now, id))], p, StartGenerated(q, g, now, id).next)
    ensures Run(steps + [Act(p, Generate(g, now, id))]).world.table == Run(steps).world.table
    ensures Own(p, steps + [Act(p, Generate(g, now, id))]) == Own(p, steps) + [Act(p, Generate(g, now, id))]
  {
    hide Run, Own;
    Acted(steps, p, q, Generate(g, now, id));
  }

  /** The one write of a rename. */
  lemma Retitled(steps: seq<Step>, p: nat, q: Process, fault: bool)
    requires q.RenameNew? && At(steps, p, q)
    ensures var t, after := Run(steps).world.table, steps + [Act(p, Commit(fault))];
            && Own(p, after) == Own(p, steps) + [Act(p, Commit(fault))]
            && At(after, p, RenameCommitted(Run(steps).world, q, fault).next)
            && Run(after).world.table
               == if fault || !RenameAccepted(t, q.chatId, q.user) then t else PutTitle(t, q.chatId, q.title)
    ensures var t := Run(steps).world.table;
            RenameAccepted(t, q.chatId, q.user) ==>
              && RenameAccepted(PutTitle(t, q.chatId, q.title), q.chatId, q.user)
              && PutTitle(t, q.chatId, q.title)[ChatKey(q.chatId)].chat.title == q.title
  {
    hide Run, Own;
    Acted(steps, p, q, Commit(fault));
  }

  /** The last event of the history is this turn. */
  ghost predicate Ends(w: World, c: Uuid, question: Message, answer: Message) {
    && c in w.logs && w.logs[c] != []
    && var e := w.logs[c][|w.logs[c]| - 1];
    && !e.Renamed? && e.user == question && e.llm == answer
  }

  /** The write of a continuation. */
  lemma Tried(steps: seq<Step>, p: nat, q: Process, fault: bool)
    requires q.ContinueReady? && At(steps, p, q)
    ensures var w, after := Run(steps).world, steps + [Act(p, Commit(fault))];
            && Own(p, after) == Own(p, steps) + [Act(p, Commit(fault))]
            && At(after, p, ContinueCommitted(w, p, q, fault).next)
            && (fault || !CanBeSaved(q) || !ExchangeAccepted(w.table, q.chat, q.question, q.answer) ==>
                  Run(after).world.table == w.table)
            && (!fault && CanBeSaved(q) && ExchangeAccepted(w.table, q.chat, q.question, q.answer) ==>
                  && Run(after).world.table == PutTurn(w.table, q.chat, q.question, q.answer)
                  && Ends(Run(after).world, q.chat.chatId, q.question, q.answer))
  {
    hide Run, Own, ExchangeAccepted, CanBeSaved;
    Acted(steps, p, q, Commit(fault));
  }

  /** What is left of a continuation once its chat is loaded. */
  function ExchangeScript(p: nat, askedAt: Instant, generated: Generated, answeredAt: Instant,
                          saveFault: bool): seq<Step> {
    [Act(p, ReadClock(askedAt)), Act(p, Generate(generated, answeredAt, 0)), Act(p, Commit(saveFault))]
  }

  /** What a continuation does when it runs to its end; one that fails has done a first part of it. */
  function ContinueScript(p: nat, request: Process, askedAt: Instant, generated: Generated, answeredAt: Instant,
                          loadFault: bool, saveFault: bool): seq<Step> {
    [Arrive(p, request)] + [Act(p, Load(loadFault))] + ExchangeScript(p, askedAt, generated, answeredAt, saveFault)
  }

  function StartScript(p: nat, request: Process, askedAt: Instant, generated: Generated, answeredAt: Instant,
                       chatId: Uuid, saveFault: bool): seq<Step> {
    [Arrive(p, request), Act(p, ReadClock(askedAt)), Act(p, Generate(generated, answeredAt, chatId)),
     Act(p, Commit(saveFault))]
  }

  /** Since then the process has taken a first part of these steps. */
  predicate DidPart(p: nat, steps: seq<Step>, after: seq<Step>, script: seq<Step>) {
    Own(p, after) <= Own(p, steps) + script
  }

  lemma ExchangeParts(p: nat, steps: seq<Step>, after: seq<Step>, askedAt: Instant, generated: Generated,
                      answeredAt: Instant, saveFault: bool)
    requires var a, b, c := Act(p, ReadClock(askedAt)), Act(p, Generate(generated, answeredAt, 0)),
               Act(p, Commit(saveFault));
             var own, before := Own(p, after), Own(p, steps);
             own == before + [a] || own == before + [a] + [b] || own == before + [a] + [b] + [c]
    ensures DidPart(p, steps, after, ExchangeScript(p, askedAt, generated, answeredAt, saveFault))
  {
    hide Own;
  }

  lemma StartParts(p: nat, request: Process, askedAt: Instant, generated: Generated, answeredAt: Instant, chatId: Uuid,
                   saveFault: bool)
    ensures var script := StartScript(p, request, askedAt, generated, answeredAt, chatId, saveFault);
            var a, b, c := Arrive(p, request), Act(p, ReadClock(askedAt)),
              Act(p, Generate(generated, answeredAt, chatId));
            && [a] + [b] + [c] <= script && [a] + [b] + [c] + [Act(p, Commit(saveFault))] <= script
  {
  }
}
