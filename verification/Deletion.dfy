/** Deleting a chat while other requests run: a read, a query page by page, and batches of deletes, each delete
    an effect of its own. Proved to be one process of the protocol, whatever runs in between. */
module Deletion {
  import opened Text
  import opened Uuids
  import opened Sorting
  import opened Batches
  import opened Store
  import opened World
  import opened Protocol
  import opened Guarantees
  import opened Leftovers
  import opened Encoding
  import opened Database
  import opened Representation
  import opened Schedules
  import opened UseCases
  import opened Repository

  // ----- pages

  function HitAt(cursor: Option<Key>): Option<Hit> {
    if cursor.None? then None else Some(HitOf(cursor.value))
  }

  lemma WholePartition(items: Items, t: Table, c: Uuid, h: Hit)
    requires Represents(items, t)
    ensures h in Hits(items, PartitionQuery(ChatPk(c), "")) <==>
              exists k: Key :: k in t && k.chatId == c && h == HitOf(k)
  {
    hide HitOf, Hits, Represents, ChatPk, SortKey;
    HitsArePartition(items, t, c, "", h);
  }

  /** The hits of a page stand for the keys beyond its cursor and up to the next one. */
  lemma PageHit(items: Items, t: Table, c: Uuid, cursor: Option<Key>, upTo: Option<Key>, h: Hit)
    requires Represents(items, t) && (cursor.Some? ==> cursor.value.chatId == c)
    requires (upTo.Some? ==> upTo.value.chatId == c)
    ensures var r := PartitionQuery(ChatPk(c), "");
            h in Beyond(items, r, HitAt(cursor)) && (upTo.None? || !Before(r, HitOf(upTo.value), h))
            <==> exists k :: k in PageKeys(t, c, cursor, upTo) && h == HitOf(k)
  {
    hide HitOf, Hits, Represents, ChatPk, KeyLess, HitLess;
    WholePartition(items, t, c, h);
    forall k: Key | k.chatId == c && h == HitOf(k)
      ensures cursor.Some? ==> (HitLess(HitOf(cursor.value), h) <==> KeyLess(cursor.value, k))
      ensures upTo.Some? ==> (HitLess(HitOf(upTo.value), h) <==> KeyLess(upTo.value, k))
    {
      if cursor.Some? { HitOrder(cursor.value, k); }
      if upTo.Some? { HitOrder(upTo.value, k); }
    }
  }

  /** A page with a next cursor ends at a key of the partition beyond the one it began at. */
  lemma NextKey(items: Items, t: Table, c: Uuid, cursor: Option<Key>, page: seq<Hit>, next: Option<Hit>)
    returns (upTo: Option<Key>)
    requires Represents(items, t) && (cursor.Some? ==> cursor.value.chatId == c)
    requires IsPage(items, PartitionQuery(ChatPk(c), ""), HitAt(cursor), page, next)
    ensures next == HitAt(upTo)
    ensures upTo.Some? ==> upTo.value in t && upTo.value.chatId == c && !KeyLess(upTo.value, upTo.value)
    ensures upTo.Some? && cursor.Some? ==> KeyLess(cursor.value, upTo.value)
  {
    hide HitOf, Hits, Represents, ChatPk, KeyLess, HitLess;
    upTo := None;
    if next.Some? {
      assert next.value in page;
      WholePartition(items, t, c, next.value);
      var k: Key :| k in t && k.chatId == c && next.value == HitOf(k);
      if cursor.Some? { HitOrder(cursor.value, k); }
      KeyOrderIsTotal();
      upTo := Some(k);
    }
  }

  lemma PageIsKeys(items: Items, t: Table, c: Uuid, cursor: Option<Key>, upTo: Option<Key>, page: seq<Hit>)
    requires Represents(items, t) && (cursor.Some? ==> cursor.value.chatId == c)
    requires (upTo.Some? ==> upTo.value.chatId == c)
    requires IsPage(items, PartitionQuery(ChatPk(c), ""), HitAt(cursor), page, HitAt(upTo))
    ensures StrictTotal(KeyLess)
    ensures page == HitsOf(InOrder(PageKeys(t, c, cursor, upTo), KeyLess))
  {
    hide HitOf, Represents, ChatPk, KeyLess, HitLess, Beyond, Before;
    var r := PartitionQuery(ChatPk(c), "");
    KeyOrderIsTotal();
    BeforeIsTotal(r);
    var keys := PageKeys(t, c, cursor, upTo);
    InOrderIsOrdered(keys, KeyLess);
    var ordered := InOrder(keys, KeyLess);
    OrderedHitsAscend(ordered, c, r);
    forall h ensures h in HitsOf(ordered) <==> h in page {
      HitListed(ordered, h);
      PageHit(items, t, c, cursor, upTo, h);
    }
    OrderIsUnique(page, HitsOf(ordered), BeforeIn(r));
  }

  // ----- the state of the process

  lemma Removed(steps: seq<Step>, p: nat, q: Process, k: Key)
    requires q.DeleteRemoving? && k in q.batch && At(steps, p, q)
    ensures At(steps + [Act(p, RemoveOne(k))], p, q.(batch := q.batch - {k}))
    ensures Run(steps + [Act(p, RemoveOne(k))]).world.table == Run(steps).world.table - {k}
  {
    hide Run;
    Acted(steps, p, q, RemoveOne(k));
  }

  lemma GaveUp(steps: seq<Step>, p: nat, q: Process)
    requires q.DeleteRemoving? && At(steps, p, q)
    ensures At(steps + [Act(p, GiveUp)], p, Finished(q.user, Failed(DeleteFailed)))
    ensures Run(steps + [Act(p, GiveUp)]).world.table == Run(steps).world.table
  {
    hide Run;
    Acted(steps, p, q, GiveUp);
  }

  lemma BatchDone(steps: seq<Step>, p: nat, q: Process)
    requires q.DeleteRemoving? && q.batch == {} && At(steps, p, q)
    ensures At(steps + [Act(p, NextBatch)], p, NextRemoving(q.user, q.chatId, q.begunAt, q.rest))
    ensures Run(steps + [Act(p, NextBatch)]).world.table == Run(steps).world.table
  {
    hide Run;
    Acted(steps, p, q, NextBatch);
  }

  /** How many keys of a chat can still come. */
  function RanksBeyond(cursor: Option<Key>): nat {
    if cursor.None? then RANKS else RankOrder(cursor.value, cursor.value); RANKS - 1 - Rank(cursor.value)
  }

  /** What was found is all there is of c up to the cursor. */
  predicate Covers(t: Table, c: Uuid, cursor: Option<Key>, found: seq<Key>) {
    Elements(found) == if cursor.None? then {} else PageKeys(t, c, None, cursor)
  }

  lemma NothingCovered(t: Table, c: Uuid)
    ensures Covers(t, c, None, [])
  {
  }

  lemma CoversMore(t: Table, c: Uuid, cursor: Option<Key>, upTo: Option<Key>, found: seq<Key>)
    requires Covers(t, c, cursor, found) && (cursor.Some? && upTo.Some? ==> KeyLess(cursor.value, upTo.value))
    ensures StrictTotal(KeyLess)
    ensures var more := found + InOrder(PageKeys(t, c, cursor, upTo), KeyLess);
            if upTo.Some? then Covers(t, c, upTo, more) else Elements(more) == Partition(t, c)
  {
    hide KeyLess;
    KeyOrderIsTotal();
    var page := PageKeys(t, c, cursor, upTo);
    InOrderIsOrdered(page, KeyLess);
    assert Elements(found + InOrder(page, KeyLess)) == Elements(found) + page;
  }

  /** Taking a page is one step of the process, and gets further into the partition. */
  lemma PageTaken(items: Items, q: Process, p: nat, steps: seq<Step>, page: seq<Hit>, next: Option<Hit>)
    returns (upTo: Option<Key>, found: seq<Key>)
    requires q.DeleteQuerying? && At(steps, p, q) && Found(q.found, q.chatId, q.cursor)
    requires (q.cursor.Some? ==> q.cursor.value.chatId == q.chatId)
    requires Represents(items, Run(steps).world.table)
    requires IsPage(items, PartitionQuery(ChatPk(q.chatId), ""), HitAt(q.cursor), page, next)
    ensures next == HitAt(upTo) && HitsOf(found) == HitsOf(q.found) + page && Sorting.Ascending(found, KeyLess)
    ensures AllIn(found, q.chatId)
    ensures upTo.Some? ==>
              upTo.value.chatId == q.chatId && Found(found, q.chatId, upTo) && RanksBeyond(upTo) < RanksBeyond(q.cursor)
    ensures var after := steps + [Act(p, Page(upTo, false))];
            && Run(after).world.table == Run(steps).world.table
            && At(after, p, if upTo.Some? then q.(cursor := upTo, found := found)
               else NextRemoving(q.user, q.chatId, q.begunAt, found))
    ensures var t := Run(steps).world.table;
            Covers(t, q.chatId, q.cursor, q.found) ==>
              if upTo.Some? then Covers(t, q.chatId, upTo, found) else Elements(found) == Partition(t, q.chatId)
  {
    hide Represents, Run, KeyLess, HitOf, NextRemoving, IsPage, ChatPk, Rank, Found, Covers;
    var t := Run(steps).world.table;
    upTo := NextKey(items, t, q.chatId, q.cursor, page, next);
    PageIsKeys(items, t, q.chatId, q.cursor, upTo, page);
    FoundExtends(q.found, t, q.chatId, q.cursor, upTo);
    HitsAppend(q.found, InOrder(PageKeys(t, q.chatId, q.cursor, upTo), KeyLess));
    Acted(steps, p, q, Page(upTo, false));
    found := q.found + InOrder(PageKeys(t, q.chatId, q.cursor, upTo), KeyLess);
    if Covers(t, q.chatId, q.cursor, q.found) {
      CoversMore(t, q.chatId, q.cursor, upTo, q.found);
    }
    if upTo.Some? {
      RankOrder(upTo.value, upTo.value);
      if q.cursor.Some? { RankOrder(q.cursor.value, upTo.value); }
    }
  }

  function KeysOfHits(hits: seq<Hit>): seq<PrimaryKey> {
    seq(|hits|, i requires 0 <= i < |hits| => hits[i].key)
  }

  /** How the outcome of the process is told to the caller. */
  ghost predicate ErrorMeans(r: Option<RepositoryError>, after: seq<Step>, p: nat, user: Uuid) {
    || (r == Some(NotFoundError) && At(after, p, Finished(user, Failed(ChatNotFound))))
    || (r == Some(DeleteError) && At(after, p, Finished(user, Failed(DeleteFailed))))
  }

  /** Keys in strict order are all different, and so are their texts. */
  lemma FoundOnce(found: seq<Key>)
    requires Sorting.Ascending(found, KeyLess)
    ensures NoRepeats(KeysOfHits(HitsOf(found)))
  {
    hide Encode, SortKey, KeyLess;
    KeyOrderIsTotal();
    var keys := KeysOfHits(HitsOf(found));
    forall i, j | 0 <= i < j < |keys| ensures keys[i] != keys[j] {
      assert KeyLess(found[i], found[j]);
      EncodeInjective(found[i], found[j]);
    }
  }

  // ----- what each loop keeps

  /** The query is where the hits and the cursor say. */
  ghost predicate QueryAt(p: nat, alone: bool, begun: seq<Step>, after: seq<Step>, q: Process, hits: seq<Hit>,
                          cursor: Option<Hit>)
  {
    && q.DeleteQuerying? && At(after, p, q) && Since(p, alone, begun, after)
    && hits == HitsOf(q.found) && Found(q.found, q.chatId, q.cursor)
    && cursor == HitAt(q.cursor) && (q.cursor.Some? ==> q.cursor.value.chatId == q.chatId)
    && (alone ==> Run(after).world.table == Run(begun).world.table)
    && (alone ==> Covers(Run(after).world.table, q.chatId, q.cursor, q.found))
  }

  lemma QueryBegins(p: nat, alone: bool, begun: seq<Step>, q: Process)
    requires q.DeleteQuerying? && At(begun, p, q) && q.cursor == None && q.found == []
    ensures QueryAt(p, alone, begun, begun, q, [], None)
  {
    hide Run;
    NothingCovered(Run(begun).world.table, q.chatId);
  }

  lemma QueryWaits(p: nat, alone: bool, begun: seq<Step>, after: seq<Step>, later: seq<Step>, q: Process,
                   hits: seq<Hit>,
                   cursor: Option<Hit>)
    requires QueryAt(p, alone, begun, after, q, hits, cursor) && after <= later && (alone ==> later == after)
    requires p in Run(after).processes ==> At(later, p, Run(after).processes[p])
    ensures QueryAt(p, alone, begun, later, q, hits, cursor)
  {
    hide Run, Covers, Found;
  }

  lemma PageFails(p: nat, alone: bool, begun: seq<Step>, after: seq<Step>, q: Process, hits: seq<Hit>,
                  cursor: Option<Hit>)
    requires QueryAt(p, alone, begun, after, q, hits, cursor)
    ensures var now := after + [Act(p, Page(None, true))];
            && At(now, p, Finished(q.user, Failed(DeleteFailed))) && Since(p, alone, begun, now)
            && Run(now).world.table == Run(after).world.table
  {
    hide Run, Covers, Found;
    SinceActed(p, alone, begun, after, Page(None, true));
    Acted(after, p, q, Page(None, true));
  }

  lemma PageRead(items: Items, p: nat, alone: bool, begun: seq<Step>, after: seq<Step>, q: Process, hits: seq<Hit>,
                 cursor: Option<Hit>, page: seq<Hit>, next: Option<Hit>)
    returns (upTo: Option<Key>, found: seq<Key>)
    requires QueryAt(p, alone, begun, after, q, hits, cursor) && Represents(items, Run(after).world.table)
    requires IsPage(items, PartitionQuery(ChatPk(q.chatId), ""), cursor, page, next)
    ensures var now := after + [Act(p, Page(upTo, false))];
            && Since(p, alone, begun, now) && Run(now).world.table == Run(after).world.table
            && (next.Some? ==>
                  && QueryAt(p, alone, begun, now, q.(cursor := upTo, found := found), hits + page, next)
                  && RanksBeyond(upTo) < RanksBeyond(q.cursor))
            && (next.None? ==>
                  && At(now, p, NextRemoving(q.user, q.chatId, q.begunAt, found)) && hits + page == HitsOf(found)
                  && Sorting.Ascending(found, KeyLess) && AllIn(found, q.chatId)
                  && (alone ==> Elements(found) == Partition(Run(begun).world.table, q.chatId)))
  {
    hide Represents, Run, KeyLess, HitOf, NextRemoving, IsPage, ChatPk, RanksBeyond, Found, Covers, Partition;
    upTo, found := PageTaken(items, q, p, after, page, next);
    SinceActed(p, alone, begun, after, Page(upTo, false));
  }

  /** The removal is where the strings left say. */
  ghost predicate RemovalAt(p: nat, alone: bool, begun: seq<Step>, after: seq<Step>, q: Process,
                            left: set<PrimaryKey>) {
    q.DeleteRemoving? && At(after, p, q) && Since(p, alone, begun, after) && StandsFor(left, q.batch)
  }

  lemma RemovalBegins(p: nat, alone: bool, begun: seq<Step>, q: Process, left: set<PrimaryKey>)
    requires q.DeleteRemoving? && At(begun, p, q) && StandsFor(left, q.batch)
    ensures RemovalAt(p, alone, begun, begun, q, left)
  {
    hide Run, StandsFor;
  }

  lemma RemovalWaits(p: nat, alone: bool, begun: seq<Step>, after: seq<Step>, later: seq<Step>, q: Process,
                     left: set<PrimaryKey>)
    requires RemovalAt(p, alone, begun, after, q, left) && after <= later && (alone ==> later == after)
    requires p in Run(after).processes ==> At(later, p, Run(after).processes[p])
    ensures RemovalAt(p, alone, begun, later, q, left)
  {
    hide Run, StandsFor;
  }

  lemma RemovalOf(p: nat, alone: bool, begun: seq<Step>, after: seq<Step>, q: Process, left: set<PrimaryKey>,
                  s: PrimaryKey)
    returns (k: Key)
    requires RemovalAt(p, alone, begun, after, q, left) && s in left
    ensures Encode(k) == s && Run(after + [Act(p, RemoveOne(k))]).world.table == Run(after).world.table - {k}
    ensures RemovalAt(p, alone, begun, after + [Act(p, RemoveOne(k))], q.(batch := q.batch - {k}), left - {s})
  {
    hide Run, StandsFor, Encode;
    k := KeyFor(left, q.batch, s);
    Removed(after, p, q, k);
    SinceActed(p, alone, begun, after, RemoveOne(k));
    StandsForRest(left, q.batch, k);
  }

  lemma RemovalEnds(p: nat, alone: bool, begun: seq<Step>, after: seq<Step>, q: Process, left: set<PrimaryKey>)
    requires RemovalAt(p, alone, begun, after, q, left)
    ensures var now := after + [Act(p, GiveUp)];
            && At(now, p, Finished(q.user, Failed(DeleteFailed))) && Since(p, alone, begun, now)
            && Run(now).world.table == Run(after).world.table
    ensures var now := after + [Act(p, NextBatch)];
            left == {} ==>
              && At(now, p, NextRemoving(q.user, q.chatId, q.begunAt, q.rest)) && Since(p, alone, begun, now)
              && Run(now).world.table == Run(after).world.table
  {
    hide Run, StandsFor, NextRemoving;
    GaveUp(after, p, q);
    SinceActed(p, alone, begun, after, GiveUp);
    if left == {} {
      EmptyAlike(left, q.batch);
      BatchDone(after, p, q);
      SinceActed(p, alone, begun, after, NextBatch);
    }
  }

  /** Without its partition, a chat has no row left, and every other row stays. */
  lemma WithoutPartition(t: Table, c: Uuid)
    ensures (t - Partition(t, c)).Keys == set k | k in t && k.chatId != c
  {
  }

  class ChatDeletionRepository {
    const client: ChatTable

    constructor (client: ChatTable)
      ensures this.client == client
    {
      this.client := client;
    }

    /** None when the row is there and belongs to the user, so that the delete may go on. */
    method CheckOwner(chatId: Uuid, user: Uuid, ghost p: nat, ghost steps: seq<Step>)
      returns (r: Option<RepositoryError>, ghost after: seq<Step>)
      requires Represents(client.items, Run(steps).world.table) && At(steps, p, DeleteNew(user, chatId))
      modifies client`faults
      ensures client.faults == old(client.faults) + (if r == Some(DeleteError) then 1 else 0)
      ensures r == None ==> RenameAccepted(Run(steps).world.table, chatId, user)
      ensures r == Some(NotFoundError) ==> !RenameAccepted(Run(steps).world.table, chatId, user)
      ensures Run(after).world.table == Run(steps).world.table && OnlyBy(p, steps, after)
      ensures r == None ==> At(after, p, DeleteQuerying(user, chatId, |Past(Run(steps).world, chatId)|, None, []))
      ensures r != None ==> ErrorMeans(r, after, p, user)
    {
      hide Represents, Run, Encode, EncodeChat, UuidText;
      ghost var t := Run(steps).world.table;
      AbsentKey(client.items, t, ChatKey(chatId));
      if ChatKey(chatId) in t {
        RowCondition(client.items, t, chatId, 0, user);
      }
      var fault, item := client.GetItem(Encode(ChatKey(chatId)));
      Acted(steps, p, DeleteNew(user, chatId), Load(fault));
      after := steps + [Act(p, Load(fault))];
      if fault {
        return Some(DeleteError), after;
      }
      if item.None? || !item.value.ChatItem? || item.value.userId != UuidText(user) {
        return Some(NotFoundError), after;
      }
      r := None;
    }

    /** Whatever else runs meanwhile, this is one delete of the protocol; when it succeeds it has asked for each
        key it found once, in order and in batches of at most 25. Alone, it finds exactly the partition and leaves
        exactly the table without it. */
    method DeleteChat(chatId: Uuid, user: Uuid, ghost p: nat, ghost steps: seq<Step>, ghost alone: bool)
      returns (r: Option<RepositoryError>, ghost found: seq<Key>, ghost batches: seq<seq<PrimaryKey>>,
               ghost after: seq<Step>)
      requires Represents(client.items, Run(steps).world.table) && At(steps, p, DeleteNew(user, chatId))
      modifies client
      ensures Represents(client.items, Run(after).world.table) && Since(p, alone, steps, after)
      ensures r == None ==> At(after, p, Finished(user, DeleteDone(chatId, |Past(Run(steps).world, chatId)|)))
      ensures r == None ==> Sorting.Ascending(found, KeyLess) && AllIn(found, chatId)
      ensures r == None ==> NoRepeats(KeysOfHits(HitsOf(found))) && CutInto(batches, KeysOfHits(HitsOf(found)), 25)
      ensures r == None ==> forall i | 0 <= i < |batches| - 1 :: |batches[i]| == 25
      ensures alone && r == None ==> Elements(found) == Partition(Run(steps).world.table, chatId)
      ensures r != None ==> ErrorMeans(r, after, p, user)
      ensures client.faults == old(client.faults) + (if r == Some(DeleteError) then 1 else 0)
      ensures r == Some(NotFoundError) ==>
                !RenameAccepted(Run(steps).world.table, chatId, user) && client.items == old(client.items)
      ensures r == None ==> RenameAccepted(Run(steps).world.table, chatId, user)
      ensures alone && r == None ==>
                Run(after).world.table == Run(steps).world.table - Partition(Run(steps).world.table, chatId)
      ensures alone && r == None ==>
                Run(after).world.table.Keys == set k | k in Run(steps).world.table && k.chatId != chatId
    {
      hide Represents, Run, KeyLess, NextRemoving, CutInto, Partition, HitOf;
      ghost var n := |Past(Run(steps).world, chatId)|;
      found, batches := [], [];
      r, after := CheckOwner(chatId, user, p, steps);
      if r != None {
        return;
      }
      var fault, hits;
      fault, hits, found, after := QueryPartition(chatId, user, n, p, after, alone);
      if fault {
        return Some(DeleteError), found, batches, after;
      }
      var keys := KeysOfHits(hits);
      FoundOnce(found);
      var complete;
      complete, batches, after := DeleteInBatches(keys, found, user, chatId, n, p, after, alone);
      if !complete {
        return Some(DeleteError), found, batches, after;
      }
      if alone {
        DeleteAlone(steps, after, p, chatId, user);
        WithoutPartition(Run(steps).world.table, chatId);
      }
      r := None;
    }

    /** All pages of the chat's partition, each read at its own moment. */
    method QueryPartition(chatId: Uuid, ghost user: Uuid, ghost n: nat, ghost p: nat, ghost steps: seq<Step>,
                          ghost alone: bool)
      returns (fault: bool, hits: seq<Hit>, ghost found: seq<Key>, ghost after: seq<Step>)
      requires Represents(client.items, Run(steps).world.table)
      requires At(steps, p, DeleteQuerying(user, chatId, n, None, []))
      modifies client
      ensures Represents(client.items, Run(after).world.table) && Since(p, alone, steps, after)
      ensures fault ==> At(after, p, Finished(user, Failed(DeleteFailed)))
      ensures client.faults == old(client.faults) + (if fault then 1 else 0)
      ensures !fault ==> At(after, p, NextRemoving(user, chatId, n, found)) && hits == HitsOf(found)
      ensures !fault ==> Sorting.Ascending(found, KeyLess) && AllIn(found, chatId)
      ensures !fault && alone ==> Elements(found) == Partition(Run(steps).world.table, chatId)
    {
      hide Represents, Run, KeyLess, NextRemoving, IsPage, ChatPk, Partition, RanksBeyond, QueryAt, HitsOf, OnlyBy;
      var cursor: Option<Hit> := None;
      ghost var q := DeleteQuerying(user, chatId, n, None, []);
      hits, found, after := [], [], steps;
      QueryBegins(p, alone, steps, q);
      while true
        invariant q.DeleteQuerying? && q == DeleteQuerying(user, chatId, n, q.cursor, q.found)
        invariant client.faults == old(client.faults)
        invariant Represents(client.items, Run(after).world.table)
        invariant QueryAt(p, alone, steps, after, q, hits, cursor)
        decreases RanksBeyond(q.cursor)
      {
        ghost var later := Await(client, p, {}, after, alone);
        QueryWaits(p, alone, steps, after, later, q, hits, cursor);
        after := later;
        var failed, page, next := client.Query(PartitionQuery(ChatPk(chatId), ""), cursor);
        if failed {
          PageFails(p, alone, steps, after, q, hits, cursor);
          return true, [], [], after + [Act(p, Page(None, true))];
        }
        ghost var upTo;
        upTo, found := PageRead(client.items, p, alone, steps, after, q, hits, cursor, page, next);
        after := after + [Act(p, Page(upTo, false))];
        hits := hits + page;
        if next.None? {
          return false, hits, found, after;
        }
        cursor, q := next, q.(cursor := upTo, found := found);
      }
    }

    /** One batch: its deletes are carried out one by one in any order, and it may be left incomplete. */
    method DeleteBatch(batch: seq<PrimaryKey>, ghost q: Process, ghost p: nat, ghost steps: seq<Step>,
                       ghost alone: bool)
      returns (complete: bool, ghost after: seq<Step>)
      requires Represents(client.items, Run(steps).world.table)
      requires q.DeleteRemoving? && At(steps, p, q) && StandsFor(Elements(batch), q.batch)
      modifies client
      ensures Represents(client.items, Run(after).world.table) && Since(p, alone, steps, after)
      ensures client.faults == old(client.faults) + (if complete then 0 else 1)
      ensures At(after, p, if complete then NextRemoving(q.user, q.chatId, q.begunAt, q.rest)
                else Finished(q.user, Failed(DeleteFailed)))
    {
      hide Represents, Run, NextRemoving, Encode, RemovalAt, OnlyBy;
      var left := Elements(batch);
      ghost var now := q;
      after := steps;
      RemovalBegins(p, alone, steps, q, left);
      while left != {}
        invariant now.DeleteRemoving? && now == DeleteRemoving(q.user, q.chatId, q.begunAt, now.batch, q.rest)
        invariant RemovalAt(p, alone, steps, after, now, left) && client.faults == old(client.faults)
        invariant Represents(client.items, Run(after).world.table)
        decreases |left|
      {
        ghost var later := Await(client, p, {}, after, alone);
        RemovalWaits(p, alone, steps, after, later, now, left);
        after := later;
        var s :| s in left;
        ghost var k := RemovalOf(p, alone, steps, after, now, left, s);
        RemoveOneRepresents(client.items, Run(after).world.table, k);
        var fault := client.DeleteItem(s);
        if fault {
          RemovalEnds(p, alone, steps, after, now, left);
          return false, after + [Act(p, GiveUp)];
        }
        after := after + [Act(p, RemoveOne(k))];
        left, now := left - {s}, now.(batch := now.batch - {k});
      }
      RemovalEnds(p, alone, steps, after, now, left);
      after := after + [Act(p, NextBatch)];
      complete := true;
    }

    /** Slices of one batch each; stops at the first batch that is left incomplete. */
    method DeleteInBatches(keys: seq<PrimaryKey>, ghost found: seq<Key>, ghost user: Uuid, ghost c: Uuid, ghost n: nat,
                           ghost p: nat, ghost steps: seq<Step>, ghost alone: bool)
      returns (complete: bool, ghost batches: seq<seq<PrimaryKey>>, ghost after: seq<Step>)
      requires Represents(client.items, Run(steps).world.table) && keys == KeysOfHits(HitsOf(found))
      requires At(steps, p, NextRemoving(user, c, n, found))
      modifies client
      ensures Represents(client.items, Run(after).world.table) && Since(p, alone, steps, after)
      ensures client.faults == old(client.faults) + (if complete then 0 else 1)
      ensures At(after, p, Finished(user, if complete then DeleteDone(c, n) else Failed(DeleteFailed)))
      ensures complete ==> CutInto(batches, keys, 25) && forall i | 0 <= i < |batches| - 1 :: |batches[i]| == 25
    {
      hide Represents, Run, Encode, HitOf;
      after, batches := steps, [];
      var start := 0;
      while start < |keys|
        invariant 0 <= start <= |keys| && CutInto(batches, keys[..start], BATCH) && client.faults == old(client.faults)
        invariant Represents(client.items, Run(after).world.table)
        invariant At(after, p, NextRemoving(user, c, n, found[start..]))
        invariant Since(p, alone, steps, after)
        invariant forall i | 0 <= i < |batches| - 1 :: |batches[i]| == 25
        invariant start < |keys| ==> forall i | 0 <= i < |batches| :: |batches[i]| == 25
      {
        var end := if start + BATCH < |keys| then start + BATCH else |keys|;
        var batch := keys[start..end];
        CutStep(batches, keys, BATCH, start, end);
        NextSlice(user, c, n, found, start, end);
        BatchStandsFor(found, start, end);
        complete, after := DeleteBatch(batch, DeleteRemoving(user, c, n, Elements(found[start..end]), found[end..]), p,
                                       after, alone);
        batches := batches + [batch];
        if !complete {
          return;
        }
        start := end;
      }
      assert keys[..start] == keys;
      complete := true;
    }
  }

  /** The strings are the encoded keys and no others. */
  ghost predicate StandsFor(strings: set<PrimaryKey>, keys: set<Key>) {
    forall s :: s in strings <==> exists k :: k in keys && Encode(k) == s
  }

  lemma RemoveOneRepresents(items: Items, t: Table, k: Key)
    requires Represents(items, t)
    ensures Represents(items - {Encode(k)}, t - {k})
  {
    hide Encode, Represents;
    forall j ensures Encode(j) in {Encode(k)} <==> j in {k} {
      EncodeInjective(j, k);
    }
    RemovalRepresents(items, t, {k}, {Encode(k)});
  }

  lemma StandsForRest(strings: set<PrimaryKey>, keys: set<Key>, k: Key)
    requires StandsFor(strings, keys) && k in keys
    ensures StandsFor(strings - {Encode(k)}, keys - {k})
  {
    hide Encode;
    forall j ensures Encode(j) == Encode(k) <==> j == k {
      EncodeInjective(j, k);
    }
  }

  lemma EmptyAlike(strings: set<PrimaryKey>, keys: set<Key>)
    requires StandsFor(strings, keys)
    ensures strings == {} <==> keys == {}
  {
    hide Encode;
    if keys != {} {
      var k :| k in keys;
      assert Encode(k) in strings;
    }
  }

  lemma KeyFor(strings: set<PrimaryKey>, keys: set<Key>, s: PrimaryKey) returns (k: Key)
    requires StandsFor(strings, keys) && s in strings
    ensures k in keys && Encode(k) == s
  {
    hide Encode;
    k :| k in keys && Encode(k) == s;
  }

  lemma NextSlice(user: Uuid, c: Uuid, n: nat, found: seq<Key>, start: nat, end: nat)
    requires start < end <= |found| && end == if start + BATCH < |found| then start + BATCH else |found|
    ensures NextRemoving(user, c, n, found[start..])
              == DeleteRemoving(user, c, n, Elements(found[start..end]), found[end..])
  {
    assert found[start..][..end - start] == found[start..end];
    assert found[start..][end - start..] == found[end..];
  }

  lemma BatchStandsFor(found: seq<Key>, start: nat, end: nat)
    requires start <= end <= |found|
    ensures StandsFor(Elements(KeysOfHits(HitsOf(found))[start..end]), Elements(found[start..end]))
  {
    hide Encode, SortKey;
    var keys := KeysOfHits(HitsOf(found));
    assert |keys| == |found| && forall i | 0 <= i < |found| :: keys[i] == Encode(found[i]);
    var strings, part := keys[start..end], found[start..end];
    forall s ensures s in strings <==> exists k :: k in part && Encode(k) == s {
      if s in strings {
        var i :| 0 <= i < |strings| && strings[i] == s;
        assert part[i] in part && Encode(part[i]) == s;
      }
      if exists k :: k in part && Encode(k) == s {
        var k :| k in part && Encode(k) == s;
        var i :| 0 <= i < |part| && part[i] == k;
        assert strings[i] == s;
      }
    }
  }
}
