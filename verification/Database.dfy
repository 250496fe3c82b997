/** The string-keyed table as its client sees it: transactions of conditional puts, a conditional
    update, single reads and deletes, and paged queries over a partition or over the user index.
    Any request may fail for reasons of its own; a failed write request of the first two kinds writes nothing. */
module Database {
  import opened Text
  import opened Sorting
  import opened Encoding

  type Items = map<PrimaryKey, Item>

  datatype Condition = NotExists | VersionAndUser(version: int, userId: string)

  datatype Put = Put(key: PrimaryKey, item: Item, condition: Condition)

  datatype WriteResult = Done | ConditionFailed | ClientError

  predicate Holds(items: Items, p: Put) {
    match p.condition
    case NotExists => p.key !in items
    case VersionAndUser(version, userId) =>
      p.key in items && items[p.key].ChatItem? && items[p.key].version == version && items[p.key].userId == userId
  }

  predicate AllHold(items: Items, puts: seq<Put>) {
    forall i | 0 <= i < |puts| :: Holds(items, puts[i])
  }

  predicate DistinctPuts(puts: seq<Put>) {
    forall i, j | 0 <= i < j < |puts| :: puts[i].key != puts[j].key
  }

  function PutAll(items: Items, puts: seq<Put>): Items {
    if puts == [] then items
    else PutAll(items, puts[..|puts| - 1])[puts[|puts| - 1].key := puts[|puts| - 1].item]
  }

  // ----- queries

  datatype Request = PartitionQuery(pk: string, prefix: string) | UserQuery(gsi1pk: string)

  /** One answer of a query: the text it is sorted by and the item it stands for. */
  datatype Hit = Hit(sort: string, key: PrimaryKey)

  function Hits(items: Items, r: Request): set<Hit> {
    match r
    case PartitionQuery(pk, prefix) => set k | k in items && k.pk == pk && prefix <= k.sk :: Hit(k.sk, k)
    case UserQuery(gsi1pk) =>
      set k | k in items && items[k].ChatItem? && items[k].gsi1pk == gsi1pk :: Hit(items[k].gsi1sk, k)
  }

  predicate KeyTextLess(a: PrimaryKey, b: PrimaryKey) {
    LexLess(a.pk, b.pk) || (a.pk == b.pk && LexLess(a.sk, b.sk))
  }

  predicate HitLess(a: Hit, b: Hit) {
    LexLess(a.sort, b.sort) || (a.sort == b.sort && KeyTextLess(a.key, b.key))
  }

  /** Partition queries read forwards; the user index is read backwards. */
  predicate Before(r: Request, a: Hit, b: Hit) {
    if r.PartitionQuery? then HitLess(a, b) else HitLess(b, a)
  }

  function BeforeIn(r: Request): Order<Hit> {
    (a, b) => Before(r, a, b)
  }

  lemma {:induction false} LexTransitive(a: string, b: string, c: string)
    requires LexLess(a, b) && LexLess(b, c)
    ensures LexLess(a, c)
  {
    if a != [] && a[0] == b[0] && b[0] == c[0] {
      LexTransitive(a[1..], b[1..], c[1..]);
    }
  }

  lemma {:induction false} LexTotal(a: string, b: string)
    ensures a == b || LexLess(a, b) || LexLess(b, a)
  {
    if a != [] && b != [] {
      LexTotal(a[1..], b[1..]);
      assert a == [a[0]] + a[1..] && b == [b[0]] + b[1..];
    }
  }

  lemma KeyTextTransitive(a: PrimaryKey, b: PrimaryKey, c: PrimaryKey)
    requires KeyTextLess(a, b) && KeyTextLess(b, c)
    ensures KeyTextLess(a, c)
  {
    if LexLess(a.pk, b.pk) && LexLess(b.pk, c.pk) { LexTransitive(a.pk, b.pk, c.pk); }
    if LexLess(a.sk, b.sk) && LexLess(b.sk, c.sk) { LexTransitive(a.sk, b.sk, c.sk); }
  }

  lemma HitTransitive(a: Hit, b: Hit, c: Hit)
    requires HitLess(a, b) && HitLess(b, c)
    ensures HitLess(a, c)
  {
    if LexLess(a.sort, b.sort) && LexLess(b.sort, c.sort) { LexTransitive(a.sort, b.sort, c.sort); }
    if KeyTextLess(a.key, b.key) && KeyTextLess(b.key, c.key) { KeyTextTransitive(a.key, b.key, c.key); }
  }

  lemma HitTotal(a: Hit, b: Hit)
    ensures a == b || HitLess(a, b) || HitLess(b, a)
    ensures !HitLess(a, a)
  {
    LexTotal(a.sort, b.sort);
    LexTotal(a.key.pk, b.key.pk);
    LexTotal(a.key.sk, b.key.sk);
    LexIrreflexive(a.sort);
    LexIrreflexive(a.key.pk);
    LexIrreflexive(a.key.sk);
  }

  lemma BeforeIsTotal(r: Request)
    ensures StrictTotal(BeforeIn(r))
  {
    var less := BeforeIn(r);
    forall a, b, c | less(a, b) && less(b, c) ensures less(a, c) {
      if r.PartitionQuery? { HitTransitive(a, b, c); } else { HitTransitive(c, b, a); }
    }
    forall a ensures !less(a, a) {
      HitTotal(a, a);
    }
    forall a, b | a != b ensures less(a, b) || less(b, a) {
      HitTotal(a, b);
    }
  }

  /** The whole answer of a query. */
  ghost function Answer(items: Items, r: Request): seq<Hit> {
    BeforeIsTotal(r);
    InOrder(Hits(items, r), BeforeIn(r))
  }

  function Beyond(items: Items, r: Request, cursor: Option<Hit>): set<Hit> {
    set h | h in Hits(items, r) && (cursor.None? || Before(r, cursor.value, h))
  }

  /** A page continues the answer after its cursor: the next hits in order, and either all that is left,
      or at least one and the last of them as the next cursor. */
  ghost predicate IsPage(items: Items, r: Request, cursor: Option<Hit>, page: seq<Hit>, next: Option<Hit>) {
    && Sorting.Ascending(page, BeforeIn(r))
    && (next.Some? ==> page != [] && next.value == page[|page| - 1])
    && (forall h :: h in page <==> h in Beyond(items, r, cursor) && (next.None? || !Before(r, next.value, h)))
  }

  class ChatTable {
    var items: Items
    ghost var faults: nat // requests of this caller that failed for reasons of their own

    method TransactWriteItems(puts: seq<Put>) returns (r: WriteResult)
      modifies this
      ensures r == Done ==> AllHold(old(items), puts) && DistinctPuts(puts) && items == PutAll(old(items), puts)
      ensures r == ConditionFailed ==> DistinctPuts(puts) && !AllHold(old(items), puts) && items == old(items)
      ensures r == ClientError ==> items == old(items)
      ensures faults == old(faults) + (if r == ClientError && DistinctPuts(puts) then 1 else 0)
    {
      var fault := *;
      if !DistinctPuts(puts) {
        return ClientError;
      }
      if fault {
        faults := faults + 1;
        return ClientError;
      }
      if !AllHold(items, puts) {
        return ConditionFailed;
      }
      ghost var before := items;
      for i := 0 to |puts|
        invariant items == PutAll(before, puts[..i]) && faults == old(faults)
      {
        assert puts[..i + 1][..i] == puts[..i];
        items := items[puts[i].key := puts[i].item];
      }
      assert puts[..|puts|] == puts;
      r := Done;
    }

    /** SET title on the condition that the item exists and belongs to the user. */
    method UpdateTitle(key: PrimaryKey, title: string, userId: string) returns (r: WriteResult)
      modifies this
      ensures r == Done ==> key in old(items) && old(items)[key].ChatItem? && old(items)[key].userId == userId
                            && items == old(items)[key := old(items)[key].(title := title)]
      ensures r == ConditionFailed ==>
                items == old(items) && !(key in items && items[key].ChatItem? && items[key].userId == userId)
      ensures r == ClientError ==> items == old(items)
      ensures faults == old(faults) + (if r == ClientError then 1 else 0)
    {
      var fault := *;
      if fault {
        faults := faults + 1;
        return ClientError;
      }
      if key !in items || !items[key].ChatItem? || items[key].userId != userId {
        return ConditionFailed;
      }
      items := items[key := items[key].(title := title)];
      r := Done;
    }

    method GetItem(key: PrimaryKey) returns (fault: bool, r: Option<Item>)
      modifies `faults
      ensures !fault ==> r == if key in items then Some(items[key]) else None
      ensures faults == old(faults) + (if fault then 1 else 0)
    {
      fault := *;
      if fault {
        faults := faults + 1;
      }
      r := if key in items then Some(items[key]) else None;
    }

    method LeastHit(hits: set<Hit>, request: Request) returns (least: Hit)
      requires hits != {}
      ensures IsLeast(least, hits, BeforeIn(request))
    {
      BeforeIsTotal(request);
      least :| least in hits;
      var rest := hits - {least};
      while rest != {}
        invariant rest <= hits && least in hits && least !in rest
        invariant forall h | h in hits && h !in rest && h != least :: Before(request, least, h)
        decreases |rest|
      {
        var h :| h in rest;
        rest := rest - {h};
        if Before(request, h, least) {
          forall g | g in hits && g !in rest && g != h ensures Before(request, h, g) {
            assert g == least || BeforeIn(request)(least, g);
            assert BeforeIn(request)(h, least);
          }
          least := h;
        } else {
          assert BeforeIn(request)(least, h);
        }
      }
    }

    /** One page, cut wherever the table pleases after its first hit. */
    method CutPage(request: Request, cursor: Option<Hit>) returns (page: seq<Hit>, next: Option<Hit>)
      ensures IsPage(items, request, cursor, page, next)
    {
      BeforeIsTotal(request);
      page, next := [], None;
      var rest := Beyond(items, request, cursor);
      while rest != {}
        invariant Sorting.Ascending(page, BeforeIn(request))
        invariant forall h :: h in page <==> h in Beyond(items, request, cursor) && h !in rest
        invariant rest <= Beyond(items, request, cursor)
        invariant forall h, g | h in page && g in rest :: BeforeIn(request)(h, g)
        decreases |rest|
      {
        var h := LeastHit(rest, request);
        rest := rest - {h};
        page := page + [h];
        var cut := *;
        if cut {
          next := Some(h);
          assert forall g | g in page :: g == h || BeforeIn(request)(g, h);
          return;
        }
      }
    }

    method Query(request: Request, cursor: Option<Hit>) returns (fault: bool, page: seq<Hit>, next: Option<Hit>)
      modifies `faults
      ensures !fault ==> IsPage(items, request, cursor, page, next)
      ensures faults == old(faults) + (if fault then 1 else 0)
    {
      page, next := CutPage(request, cursor);
      fault := *;
      if fault {
        faults := faults + 1;
      }
    }

    /** One delete of a batch, which may be left undone. */
    method DeleteItem(key: PrimaryKey) returns (fault: bool)
      modifies this
      ensures items == if fault then old(items) else old(items) - {key}
      ensures faults == old(faults) + (if fault then 1 else 0)
    {
      fault := *;
      if fault {
        faults := faults + 1;
      } else {
        items := items - {key};
      }
    }
  }
}
