/** The library catalogue sync: it compares the table with a bucket listing, plans puts and deletes, cuts the plan
    into batches and applies them without atomicity. The digest behind source ids and the conversion of
    timestamps are parameters. */
module Catalog {
  import opened Text
  import opened Encoding
  import opened Batches
  import opened StableSort

  const DATA_SOURCE_PREFIX := "documents/"
  const BATCH_WRITE_LIMIT := 25

  datatype S3Object = S3Object(key: string, lastModified: string)

  datatype CatalogItem = CatalogItem(sourceId: string, s3Key: string, paperTitle: string, category: string,
                                     status: string, s3UploadedAt: string)

  /** A row of the library table. Rows written by the sync have no ragIndexedAt. */
  datatype Row = Row(item: CatalogItem, ragIndexedAt: Option<string>)

  type Rows = map<PrimaryKey, Row>

  // ----- reading the bucket listing

  function LowerCase(c: char): char {
    if 'A' <= c <= 'Z' then (c as int + 32) as char else c
  }

  predicate EndsWithPdf(s: string) {
    |s| >= 4 && s[|s| - 4] == '.' && LowerCase(s[|s| - 3]) == 'p' && LowerCase(s[|s| - 2]) == 'd' &&
      LowerCase(s[|s| - 1]) == 'f'
  }

  predicate IsPdfKey(key: string) {
    DATA_SOURCE_PREFIX <= key && EndsWithPdf(key)
  }

  /** The pieces between slashes, empty ones included. */
  function Pieces(s: string): (pieces: seq<string>)
    ensures pieces != []
  {
    if s == "" then [""]
    else
      var rest := Pieces(s[1..]);
      if s[0] == '/' then [""] + rest else [[s[0]] + rest[0]] + rest[1..]
  }

  function NonEmpty(pieces: seq<string>): seq<string> {
    if pieces == [] then []
    else NonEmpty(pieces[..|pieces| - 1]) + (if pieces[|pieces| - 1] == "" then [] else [pieces[|pieces| - 1]])
  }

  /** None where the script stops: a PDF outside any category folder. */
  function BuildItem(o: S3Object, ids: string -> string, stamp: string -> string): Option<CatalogItem>
    requires IsPdfKey(o.key)
  {
    var segments := NonEmpty(Pieces(o.key[|DATA_SOURCE_PREFIX|..]));
    if |segments| < 2 then None
    else
      var name := segments[|segments| - 1];
      var title := if EndsWithPdf(name) then name[..|name| - 4] else name;
      Some(CatalogItem(ids(o.key), o.key, title, segments[0], "uploaded", stamp(o.lastModified)))
  }

  // ----- what a key tells

  predicate SlashFree(pieces: seq<string>) {
    forall i | 0 <= i < |pieces| :: '/' !in pieces[i]
  }

  function Path(pieces: seq<string>): string
    requires pieces != []
  {
    if |pieces| == 1 then pieces[0] else pieces[0] + "/" + Path(pieces[1..])
  }

  lemma {:induction false} FirstPiece(name: string, rest: string)
    requires '/' !in name
    ensures Pieces(name) == [name] && Pieces(name + "/" + rest) == [name] + Pieces(rest)
  {
    if name == "" {
      assert name + "/" + rest == "/" + rest && ("/" + rest)[1..] == rest;
    } else {
      FirstPiece(name[1..], rest);
      assert (name + "/" + rest)[1..] == name[1..] + "/" + rest;
      assert [name[0]] + name[1..] == name;
    }
  }

  /** Cutting a path at its slashes gives back the pieces it was made of. */
  lemma {:induction false} PiecesOfPath(pieces: seq<string>)
    requires pieces != [] && SlashFree(pieces)
    ensures Pieces(Path(pieces)) == pieces
  {
    if |pieces| == 1 {
      FirstPiece(pieces[0], "");
    } else {
      FirstPiece(pieces[0], Path(pieces[1..]));
      PiecesOfPath(pieces[1..]);
    }
  }

  /** Every text is the path of its pieces. */
  lemma {:induction false} PathOfPieces(s: string)
    ensures SlashFree(Pieces(s)) && Path(Pieces(s)) == s
  {
    if s != "" {
      PathOfPieces(s[1..]);
      var rest := Pieces(s[1..]);
      assert s == [s[0]] + s[1..];
      if s[0] == '/' {
        assert ([""] + rest)[1..] == rest;
        assert "" + "/" + Path(rest) == s;
      } else {
        assert ([[s[0]] + rest[0]] + rest[1..])[1..] == rest[1..];
        if |rest| > 1 {
          assert [s[0]] + rest[0] + "/" + Path(rest[1..]) == [s[0]] + (rest[0] + "/" + Path(rest[1..]));
        }
      }
    }
  }

  lemma {:induction false} PathEnds(pieces: seq<string>) returns (front: string)
    requires pieces != []
    ensures "/" + Path(pieces) == front + "/" + pieces[|pieces| - 1]
  {
    front := "";
    if |pieces| == 1 {
      assert "/" + pieces[0] == "" + "/" + pieces[0];
    } else {
      var rest := PathEnds(pieces[1..]);
      front := "/" + pieces[0] + rest;
      assert "/" + (pieces[0] + "/" + Path(pieces[1..])) == "/" + pieces[0] + ("/" + Path(pieces[1..]));
      assert "/" + pieces[0] + (rest + "/" + pieces[|pieces| - 1]) == front + "/" + pieces[|pieces| - 1];
    }
  }

  /** The extension holds no slash, so it is all in the last piece. */
  lemma ExtensionInLast(front: string, last: string)
    requires EndsWithPdf(front + "/" + last)
    ensures EndsWithPdf(last)
  {
    var all := front + "/" + last;
    assert all[|front|] == '/';
    assert forall j | |front| < j < |all| :: all[j] == last[j - |front| - 1];
  }

  lemma LastPieceIsPdf(pieces: seq<string>)
    requires pieces != [] && IsPdfKey(DATA_SOURCE_PREFIX + Path(pieces))
    ensures EndsWithPdf(pieces[|pieces| - 1])
  {
    hide Path, EndsWithPdf;
    var front := PathEnds(pieces);
    var last := pieces[|pieces| - 1];
    Rejoin("documents", Path(pieces), front, last);
    assert DATA_SOURCE_PREFIX == "documents" + "/";
    ExtensionInLast("documents" + front, last);
  }

  lemma Rejoin(folder: string, path: string, front: string, last: string)
    requires "/" + path == front + "/" + last
    ensures folder + "/" + path == folder + front + "/" + last
  {
    assert folder + "/" + path == folder + ("/" + path);
    assert folder + (front + "/" + last) == folder + front + "/" + last;
  }

  const PDF_ENDINGS := [".pdf", ".pdF", ".pDf", ".pDF", ".Pdf", ".PdF", ".PDf", ".PDF"]

  /** What makes a key a PDF's. */
  lemma PdfKeysAre(key: string)
    ensures IsPdfKey(key) <==> "documents/" <= key && |key| >= 4 && key[|key| - 4..] in PDF_ENDINGS
  {
    if |key| >= 4 {
      var ending := key[|key| - 4..];
      assert ending == [ending[0], ending[1], ending[2], ending[3]];
      assert forall i | 0 <= i < 8 :: PDF_ENDINGS[i] in PDF_ENDINGS;
    }
  }

  /** The piece is the outermost folder with a name; the last piece is the file and no folder. */
  predicate IsOutermost(pieces: seq<string>, i: nat) {
    i < |pieces| - 1 && pieces[i] != "" && forall j | 0 <= j < i :: pieces[j] == ""
  }

  lemma {:induction false} FirstName(pieces: seq<string>)
    ensures NonEmpty(pieces) == [] <==> forall j | 0 <= j < |pieces| :: pieces[j] == ""
    ensures forall i: nat | i < |pieces| && pieces[i] != "" && (forall j | 0 <= j < i :: pieces[j] == "") ::
              NonEmpty(pieces) != [] && NonEmpty(pieces)[0] == pieces[i]
  {
    if pieces != [] {
      var n := |pieces| - 1;
      var front := pieces[..n];
      FirstName(front);
      assert forall j | 0 <= j < n :: front[j] == pieces[j];
      assert NonEmpty(pieces) == NonEmpty(front) + (if pieces[n] == "" then [] else [pieces[n]]);
    }
  }

  lemma NamesOfPath(pieces: seq<string>, file: string)
    requires pieces != [] && file == pieces[|pieces| - 1] && file != ""
    ensures NonEmpty(pieces) == NonEmpty(pieces[..|pieces| - 1]) + [file]
    ensures |NonEmpty(pieces)| < 2 <==> forall j | 0 <= j < |pieces| - 1 :: pieces[j] == ""
    ensures forall i: nat | IsOutermost(pieces, i) :: |NonEmpty(pieces)| >= 2 && NonEmpty(pieces)[0] == pieces[i]
  {
    var front := pieces[..|pieces| - 1];
    FirstName(front);
    assert forall j | 0 <= j < |front| :: front[j] == pieces[j];
  }

  /** A PDF lies under folders, of which those without a name do not count: the outermost other one is its category,
      and its title is the file name without extension. A PDF in no such folder, and only that, has no item. By
      PathOfPieces every key is such a path. */
  lemma ItemOfPath(pieces: seq<string>, lastModified: string, ids: string -> string, stamp: string -> string)
    requires pieces != [] && SlashFree(pieces) && IsPdfKey("documents/" + Path(pieces))
    ensures var key, file := "documents/" + Path(pieces), pieces[|pieces| - 1];
            var item := BuildItem(S3Object(key, lastModified), ids, stamp);
            && |file| >= 4
            && (item == None <==> forall j | 0 <= j < |pieces| - 1 :: pieces[j] == "")
            && forall i: nat | IsOutermost(pieces, i) ::
               item == Some(CatalogItem(ids(key), key, file[..|file| - 4], pieces[i], "uploaded", stamp(lastModified)))
  {
    LastPieceIsPdf(pieces);
    var file := pieces[|pieces| - 1];
    assert |file| >= 4;
    hide Pieces, Path, IsPdfKey, NonEmpty, IsOutermost;
    NamesOfPath(pieces, file);
    PiecesOfPath(pieces);
    assert ("documents/" + Path(pieces))[|DATA_SOURCE_PREFIX|..] == Path(pieces);
  }

  /** The items of the PDFs in listing order. */
  function ReadItems(objects: seq<S3Object>, ids: string -> string, stamp: string -> string): Option<seq<CatalogItem>> {
    if objects == [] then Some([])
    else if !IsPdfKey(objects[0].key) then ReadItems(objects[1..], ids, stamp)
    else
      var head, tail := BuildItem(objects[0], ids, stamp), ReadItems(objects[1..], ids, stamp);
      if head.Some? && tail.Some? then Some([head.value] + tail.value) else None
  }

  /** The items sorted by bucket key, in whatever order the locale gives to keys. */
  function BuildCatalogItems(objects: seq<S3Object>, ids: string -> string, stamp: string -> string,
                             collation: Less<string>): Option<seq<CatalogItem>> {
    var items := ReadItems(objects, ids, stamp);
    if items.None? then None
    else Some(SortBy(items.value, ByKey(collation)))
  }

  function ByKey(collation: Less<string>): Less<CatalogItem> {
    (a: CatalogItem, b: CatalogItem) => collation(a.s3Key, b.s3Key)
  }

  // ----- the plan

  datatype Existing = Existing(key: PrimaryKey, s3Key: string)

  datatype Request = PutRow(key: PrimaryKey, row: Row) | DeleteRow(key: PrimaryKey)

  function CatalogKey(sourceId: string): PrimaryKey {
    PrimaryKey("SOURCE#" + sourceId, "SOURCE")
  }

  function PutOf(item: CatalogItem): Request {
    PutRow(CatalogKey(item.sourceId), Row(item, None))
  }

  function S3Keys(items: seq<CatalogItem>): set<string> {
    set i | 0 <= i < |items| :: items[i].s3Key
  }

  function Puts(items: seq<CatalogItem>): seq<Request> {
    seq(|items|, i requires 0 <= i < |items| => PutOf(items[i]))
  }

  function Deletes(current: set<string>, existing: seq<Existing>): seq<Request> {
    if existing == [] then []
    else (if existing[0].s3Key in current then [] else [DeleteRow(existing[0].key)]) + Deletes(current, existing[1..])
  }

  function BuildWriteRequests(items: seq<CatalogItem>, existing: seq<Existing>): seq<Request> {
    Puts(items) + Deletes(S3Keys(items), existing)
  }

  // ----- applying requests

  function ApplyRequest(rows: Rows, r: Request): Rows {
    match r
    case PutRow(k, row) => rows[k := row]
    case DeleteRow(k) => rows - {k}
  }

  function ApplyRequests(rows: Rows, rs: seq<Request>): Rows {
    if rs == [] then rows else ApplyRequest(ApplyRequests(rows, rs[..|rs| - 1]), rs[|rs| - 1])
  }

  lemma {:induction false} ApplyAppend(rows: Rows, a: seq<Request>, b: seq<Request>)
    ensures ApplyRequests(rows, a + b) == ApplyRequests(ApplyRequests(rows, a), b)
  {
    if b == [] {
      assert a + b == a;
    } else {
      var n := |b| - 1;
      assert (a + b)[..|a + b| - 1] == a + b[..n];
      ApplyAppend(rows, a, b[..n]);
    }
  }

  // ----- what the plan is for

  /** The rows of a catalogue and no others. */
  predicate IsCatalogue(rows: Rows, items: seq<CatalogItem>) {
    && HoldsAll(rows, items)
    && (forall k | k in rows :: exists i :: 0 <= i < |items| && k == CatalogKey(items[i].sourceId))
  }

  predicate HasKey(items: seq<CatalogItem>, k: PrimaryKey) {
    exists i :: 0 <= i < |items| && k == CatalogKey(items[i].sourceId)
  }

  /** No two items of a catalogue share a key: distinct bucket keys and no collision of source ids. */
  predicate NoCollision(items: seq<CatalogItem>) {
    forall i, j | 0 <= i < j < |items| :: CatalogKey(items[i].sourceId) != CatalogKey(items[j].sourceId)
  }

  /** Every stored row that is still current is under a key of the catalogue, and every other row is not. */
  predicate Fits(rows: Rows, items: seq<CatalogItem>) {
    forall k | k in rows :: rows[k].item.s3Key in S3Keys(items) <==> HasKey(items, k)
  }

  /** The scan names every row once, in any order. */
  predicate Scans(existing: seq<Existing>, rows: Rows) {
    && (forall i, j | 0 <= i < j < |existing| :: existing[i].key != existing[j].key)
    && (forall i | 0 <= i < |existing| ::
         existing[i].key in rows && existing[i].s3Key == rows[existing[i].key].item.s3Key)
    && (forall k | k in rows :: exists i :: 0 <= i < |existing| && existing[i].key == k)
  }

  predicate Stale(rows: Rows, items: seq<CatalogItem>, k: PrimaryKey) {
    k in rows && rows[k].item.s3Key !in S3Keys(items)
  }

  lemma {:induction false} DeletesAre(current: set<string>, existing: seq<Existing>, r: Request)
    ensures r in Deletes(current, existing) <==> r.DeleteRow? && exists i ::
              0 <= i < |existing| && existing[i].key == r.key && existing[i].s3Key !in current
  {
    if existing != [] {
      DeletesAre(current, existing[1..], r);
      var tail := existing[1..];
      assert forall i | 0 <= i < |tail| :: tail[i] == existing[i + 1];
      assert existing[0] == existing[0];
    }
  }

  lemma DeletesAreStale(rows: Rows, items: seq<CatalogItem>, existing: seq<Existing>, k: PrimaryKey)
    requires Scans(existing, rows)
    ensures DeleteRow(k) in Deletes(S3Keys(items), existing) <==> Stale(rows, items, k)
  {
    DeletesAre(S3Keys(items), existing, DeleteRow(k));
  }

  lemma {:induction false} DeletesApplied(rows: Rows, rs: seq<Request>)
    requires forall r | r in rs :: r.DeleteRow?
    ensures forall k :: k in ApplyRequests(rows, rs) <==> k in rows && DeleteRow(k) !in rs
    ensures forall k | k in ApplyRequests(rows, rs) :: k in rows && ApplyRequests(rows, rs)[k] == rows[k]
  {
    if rs != [] {
      var n := |rs| - 1;
      assert rs == rs[..n] + [rs[n]] && rs[n] in rs;
      DeletesApplied(rows, rs[..n]);
      assert ApplyRequests(rows, rs) == ApplyRequests(rows, rs[..n]) - {rs[n].key};
    }
  }

  predicate HoldsAll(rows: Rows, items: seq<CatalogItem>) {
    forall i | 0 <= i < |items| ::
      CatalogKey(items[i].sourceId) in rows && rows[CatalogKey(items[i].sourceId)] == Row(items[i], None)
  }

  ghost predicate OthersKept(rows: Rows, after: Rows, items: seq<CatalogItem>) {
    && (forall k | !HasKey(items, k) :: (k in after <==> k in rows) && (k in rows ==> after[k] == rows[k]))
    && (forall k | k in rows :: k in after)
  }

  lemma OnePutHolds(before: Rows, items: seq<CatalogItem>)
    requires items != [] && NoCollision(items) && HoldsAll(before, items[..|items| - 1])
    ensures var last := items[|items| - 1]; HoldsAll(before[CatalogKey(last.sourceId) := Row(last, None)], items)
  {
    var n := |items| - 1;
    var after := before[CatalogKey(items[n].sourceId) := Row(items[n], None)];
    forall i | 0 <= i < |items|
      ensures CatalogKey(items[i].sourceId) in after && after[CatalogKey(items[i].sourceId)] == Row(items[i], None)
    {
      if i < n { assert items[..n][i] == items[i]; }
    }
  }

  lemma {:induction false} PutsApplied(rows: Rows, items: seq<CatalogItem>)
    requires NoCollision(items)
    ensures HoldsAll(ApplyRequests(rows, Puts(items)), items)
    ensures OthersKept(rows, ApplyRequests(rows, Puts(items)), items)
  {
    if items != [] {
      var n := |items| - 1;
      var front := items[..n];
      PutsApplied(rows, front);
      assert Puts(items)[..n] == Puts(front);
      var before, after := ApplyRequests(rows, Puts(front)), ApplyRequests(rows, Puts(items));
      assert after == before[CatalogKey(items[n].sourceId) := Row(items[n], None)];
      OnePutHolds(before, items);
      forall k | !HasKey(items, k) ensures (k in after <==> k in rows) && (k in rows ==> after[k] == rows[k]) {
        assert !HasKey(front, k);
      }
    }
  }

  ghost function Synced(rows: Rows, items: seq<CatalogItem>, existing: seq<Existing>): Rows {
    ApplyRequests(rows, BuildWriteRequests(items, existing))
  }

  /** The table after a complete sync, key by key. */
  lemma SyncedRows(rows: Rows, items: seq<CatalogItem>, existing: seq<Existing>, k: PrimaryKey)
    requires NoCollision(items) && Scans(existing, rows)
    ensures var after := Synced(rows, items, existing);
            && (k in after <==> (HasKey(items, k) || k in rows) && !Stale(rows, items, k))
            && (k in after && !HasKey(items, k) ==> k in rows && after[k] == rows[k])
            && (forall i | 0 <= i < |items| && k == CatalogKey(items[i].sourceId) && k in after ::
                 after[k] == Row(items[i], None))
  {
    var deletes := Deletes(S3Keys(items), existing);
    ApplyAppend(rows, Puts(items), deletes);
    PutsApplied(rows, items);
    forall r | r in deletes ensures r.DeleteRow? {
      DeletesAre(S3Keys(items), existing, r);
    }
    DeletesApplied(ApplyRequests(rows, Puts(items)), deletes);
    DeletesAreStale(rows, items, existing, k);
  }

  /** A complete sync yields exactly the current catalogue if and only if, beforehand, every row that is still
      current was under a catalogue key and no stale row was. */
  lemma SyncIsExact(rows: Rows, items: seq<CatalogItem>, existing: seq<Existing>)
    requires NoCollision(items) && Scans(existing, rows)
    ensures IsCatalogue(Synced(rows, items, existing), items) <==> Fits(rows, items)
  {
    var after := Synced(rows, items, existing);
    if Fits(rows, items) {
      forall i | 0 <= i < |items|
        ensures CatalogKey(items[i].sourceId) in after && after[CatalogKey(items[i].sourceId)] == Row(items[i], None)
      {
        SyncedRows(rows, items, existing, CatalogKey(items[i].sourceId));
        assert HasKey(items, CatalogKey(items[i].sourceId));
      }
      forall k | k in after ensures exists i :: 0 <= i < |items| && k == CatalogKey(items[i].sourceId) {
        SyncedRows(rows, items, existing, k);
        assert HasKey(items, k);
      }
    }
    if IsCatalogue(after, items) {
      forall k | k in rows ensures rows[k].item.s3Key in S3Keys(items) <==> HasKey(items, k) {
        SyncedRows(rows, items, existing, k);
        assert k in after ==> HasKey(items, k);
        assert HasKey(items, k) ==> k in after;
      }
    }
  }

  /** There is one catalogue: two tables that hold it are equal. */
  lemma CatalogueIsUnique(a: Rows, b: Rows, items: seq<CatalogItem>)
    requires IsCatalogue(a, items) && IsCatalogue(b, items)
    ensures a == b
  {
    forall k ensures k in a <==> k in b {
    }
    forall k | k in a ensures a[k] == b[k] {
      var i :| 0 <= i < |items| && k == CatalogKey(items[i].sourceId);
    }
  }

  // ----- interruption

  /** A run that stopped anywhere: some of the planned requests were carried out, in some order. */
  predicate Partial(plan: seq<Request>, done: seq<Request>) {
    forall r | r in done :: r in plan
  }

  lemma PlannedRequest(rows: Rows, items: seq<CatalogItem>, existing: seq<Existing>, r: Request)
    requires Scans(existing, rows) && r in BuildWriteRequests(items, existing)
    ensures (exists i :: 0 <= i < |items| && r == PutOf(items[i])) || (r.DeleteRow? && Stale(rows, items, r.key))
  {
    if r in Deletes(S3Keys(items), existing) {
      DeletesAre(S3Keys(items), existing, r);
    } else {
      var i :| 0 <= i < |Puts(items)| && Puts(items)[i] == r;
      assert r == PutOf(items[i]);
    }
  }

  /** The row under k is as it was before, or the row of a catalogue item under its own key. */
  predicate OldOrListed(before: Rows, now: Rows, items: seq<CatalogItem>, k: PrimaryKey)
    requires k in now
  {
    || (k in before && now[k] == before[k])
    || exists i :: 0 <= i < |items| && k == CatalogKey(items[i].sourceId) && now[k] == Row(items[i], None)
  }

  /** What each planned request keeps of the rows the plan was made for. */
  ghost predicate Midway(before: Rows, now: Rows, items: seq<CatalogItem>) {
    && Fits(now, items)
    && (forall k | k in now :: OldOrListed(before, now, items, k))
    && (forall k | k in before && !Stale(before, items, k) :: k in now)
  }

  lemma RequestKeepsMidway(before: Rows, now: Rows, items: seq<CatalogItem>, r: Request)
    requires NoCollision(items) && Fits(before, items) && Midway(before, now, items)
    requires (exists i :: 0 <= i < |items| && r == PutOf(items[i])) || (r.DeleteRow? && Stale(before, items, r.key))
    ensures Midway(before, ApplyRequest(now, r), items)
  {
    var after := ApplyRequest(now, r);
    if exists i :: 0 <= i < |items| && r == PutOf(items[i]) {
      var i :| 0 <= i < |items| && r == PutOf(items[i]);
      assert after[r.key].item.s3Key == items[i].s3Key && items[i].s3Key in S3Keys(items);
      assert HasKey(items, r.key);
    }
  }

  /** However a sync is interrupted, every key that held a current PDF holds one still, every row is as it was or
      as the catalogue has it, and the table still fits the listing. */
  lemma {:induction false} InterruptedSync(rows: Rows, items: seq<CatalogItem>, existing: seq<Existing>,
                                           done: seq<Request>)
    requires NoCollision(items) && Scans(existing, rows) && Fits(rows, items)
    requires Partial(BuildWriteRequests(items, existing), done)
    ensures Midway(rows, ApplyRequests(rows, done), items)
  {
    if done != [] {
      var n := |done| - 1;
      assert done == done[..n] + [done[n]];
      InterruptedSync(rows, items, existing, done[..n]);
      assert done[n] in done;
      PlannedRequest(rows, items, existing, done[n]);
      RequestKeepsMidway(rows, ApplyRequests(rows, done[..n]), items, done[n]);
    }
  }

  // ----- which PDFs an interrupted sync can lose

  predicate HoldsPdf(rows: Rows, s3Key: string) {
    exists k :: k in rows && rows[k].item.s3Key == s3Key
  }

  /** The catalogue gives this key to no other PDF. */
  predicate KeyOnlyFor(items: seq<CatalogItem>, k: PrimaryKey, s3Key: string) {
    forall i | 0 <= i < |items| && k == CatalogKey(items[i].sourceId) :: items[i].s3Key == s3Key
  }

  /** Some row of the PDF is under a key that the catalogue gives to no other. */
  predicate Anchored(rows: Rows, items: seq<CatalogItem>, s3Key: string) {
    exists k :: k in rows && rows[k].item.s3Key == s3Key && KeyOnlyFor(items, k, s3Key)
  }

  lemma {:induction false} AnchorHolds(rows: Rows, items: seq<CatalogItem>, existing: seq<Existing>, done: seq<Request>,
                                       k: PrimaryKey)
    requires Scans(existing, rows) && Partial(BuildWriteRequests(items, existing), done)
    requires k in rows && !Stale(rows, items, k) && KeyOnlyFor(items, k, rows[k].item.s3Key)
    ensures var now := ApplyRequests(rows, done); k in now && now[k].item.s3Key == rows[k].item.s3Key
  {
    if done != [] {
      var n := |done| - 1;
      assert done == done[..n] + [done[n]] && done[n] in done;
      AnchorHolds(rows, items, existing, done[..n], k);
      PlannedRequest(rows, items, existing, done[n]);
    }
  }

  /** The puts of all the other PDFs. */
  function OtherPuts(items: seq<CatalogItem>, s3Key: string): seq<Request> {
    if items == [] then []
    else
      var n := |items| - 1;
      OtherPuts(items[..n], s3Key) + (if items[n].s3Key == s3Key then [] else [PutOf(items[n])])
  }

  lemma {:induction false} OtherPutsPlanned(items: seq<CatalogItem>, s3Key: string)
    ensures Partial(Puts(items), OtherPuts(items, s3Key))
  {
    if items != [] {
      var n := |items| - 1;
      OtherPutsPlanned(items[..n], s3Key);
      assert Puts(items) == Puts(items[..n]) + [PutOf(items[n])];
    }
  }

  /** Only anchored rows of the PDF outlast the puts of all the others. */
  lemma {:induction false} OnlyAnchorsRemain(rows: Rows, items: seq<CatalogItem>, s3Key: string, k: PrimaryKey)
    requires var now := ApplyRequests(rows, OtherPuts(items, s3Key)); k in now && now[k].item.s3Key == s3Key
    ensures k in rows && rows[k].item.s3Key == s3Key && KeyOnlyFor(items, k, s3Key)
  {
    if items != [] {
      var n := |items| - 1;
      var front, puts := OtherPuts(items[..n], s3Key), OtherPuts(items, s3Key);
      if items[n].s3Key == s3Key {
        assert puts == front;
      } else {
        assert puts[..|puts| - 1] == front;
        assert k != CatalogKey(items[n].sourceId);
      }
      OnlyAnchorsRemain(rows, items[..n], s3Key, k);
      forall i | 0 <= i < |items| && k == CatalogKey(items[i].sourceId) ensures items[i].s3Key == s3Key {
        if i < n { assert items[..n][i] == items[i]; }
      }
    }
  }

  /** A current PDF keeps a row through every interruption exactly when it had one under a key that the
      catalogue gives to no other PDF. */
  lemma PdfSurvives(rows: Rows, items: seq<CatalogItem>, existing: seq<Existing>, s3Key: string)
    requires Scans(existing, rows) && s3Key in S3Keys(items)
    ensures (forall done | Partial(BuildWriteRequests(items, existing), done) ::
              HoldsPdf(ApplyRequests(rows, done), s3Key))
            <==> Anchored(rows, items, s3Key)
  {
    var plan := BuildWriteRequests(items, existing);
    if Anchored(rows, items, s3Key) {
      var k :| k in rows && rows[k].item.s3Key == s3Key && KeyOnlyFor(items, k, s3Key);
      forall done | Partial(plan, done) ensures HoldsPdf(ApplyRequests(rows, done), s3Key) {
        AnchorHolds(rows, items, existing, done, k);
      }
    }
    if forall done | Partial(plan, done) :: HoldsPdf(ApplyRequests(rows, done), s3Key) {
      var done := OtherPuts(items, s3Key);
      OtherPutsPlanned(items, s3Key);
      assert Partial(plan, done);
      var k :| k in ApplyRequests(rows, done) && ApplyRequests(rows, done)[k].item.s3Key == s3Key;
      OnlyAnchorsRemain(rows, items, s3Key, k);
    }
  }

  /** A table that fits its listing in which an interruption loses a current PDF: B takes the key A is under. */
  lemma PdfLost(a: CatalogItem, b: CatalogItem, stored: CatalogItem)
    requires a.s3Key != b.s3Key && a.sourceId != b.sourceId && stored.s3Key == a.s3Key
    ensures var rows := map[CatalogKey(b.sourceId) := Row(stored, None)];
            var existing := [Existing(CatalogKey(b.sourceId), a.s3Key)];
            && NoCollision([a, b]) && Scans(existing, rows) && Fits(rows, [a, b])
            && Partial(BuildWriteRequests([a, b], existing), [PutOf(b)])
            && HoldsPdf(rows, a.s3Key) && !HoldsPdf(ApplyRequests(rows, [PutOf(b)]), a.s3Key)
  {
    var items, k := [a, b], CatalogKey(b.sourceId);
    var rows := map[k := Row(stored, None)];
    var existing := [Existing(k, a.s3Key)];
    CatalogKeyInjective(a.sourceId, b.sourceId);
    assert items[0] == a && items[1] == b;
    assert HasKey(items, k) && a.s3Key in S3Keys(items);
    assert existing[0].key == k;
    assert Puts(items)[1] == PutOf(b);
    assert PutOf(b) in BuildWriteRequests(items, existing);
    assert rows[k].item.s3Key == a.s3Key;
    assert [PutOf(b)][..0] == [];
    assert ApplyRequests(rows, [PutOf(b)]) == rows[k := Row(b, None)];
  }

  /** Running the sync again from wherever it stopped reaches the table an uninterrupted run would have reached. */
  lemma Resumable(rows: Rows, items: seq<CatalogItem>, existing: seq<Existing>, done: seq<Request>,
                  rescanned: seq<Existing>)
    requires NoCollision(items) && Scans(existing, rows) && Fits(rows, items)
    requires Partial(BuildWriteRequests(items, existing), done)
    requires Scans(rescanned, ApplyRequests(rows, done))
    ensures Synced(ApplyRequests(rows, done), items, rescanned) == Synced(rows, items, existing)
  {
    var stopped := ApplyRequests(rows, done);
    InterruptedSync(rows, items, existing, done);
    SyncIsExact(stopped, items, rescanned);
    SyncIsExact(rows, items, existing);
    CatalogueIsUnique(Synced(stopped, items, rescanned), Synced(rows, items, existing), items);
  }

  /** A second sync against the same listing changes nothing. */
  lemma SyncTwice(rows: Rows, items: seq<CatalogItem>, existing: seq<Existing>, rescanned: seq<Existing>)
    requires NoCollision(items) && Scans(existing, rows) && Fits(rows, items)
    requires Scans(rescanned, Synced(rows, items, existing))
    ensures Synced(Synced(rows, items, existing), items, rescanned) == Synced(rows, items, existing)
  {
    var once := Synced(rows, items, existing);
    SyncIsExact(rows, items, existing);
    forall k | k in once ensures once[k].item.s3Key in S3Keys(items) <==> HasKey(items, k) {
      var i :| 0 <= i < |items| && k == CatalogKey(items[i].sourceId);
      assert once[k] == Row(items[i], None);
    }
    hide IsCatalogue, Synced, Scans, NoCollision;
    SyncIsExact(once, items, rescanned);
    CatalogueIsUnique(Synced(once, items, rescanned), once, items);
  }

  // ----- any history of syncs

  /** Every row is under the key its bucket key determines. */
  predicate Canonical(rows: Rows, ids: string -> string) {
    forall k | k in rows :: rows[k].item.sourceId == ids(rows[k].item.s3Key) && k == CatalogKey(rows[k].item.sourceId)
  }

  predicate BuiltWith(items: seq<CatalogItem>, ids: string -> string) {
    forall i | 0 <= i < |items| :: items[i].sourceId == ids(items[i].s3Key)
  }

  predicate DistinctS3Keys(items: seq<CatalogItem>) {
    forall i, j | 0 <= i < j < |items| :: items[i].s3Key != items[j].s3Key
  }

  /** No two of these bucket keys have the same source id. */
  predicate CollisionFree(ids: string -> string, s3Keys: set<string>) {
    forall a, b | a in s3Keys && b in s3Keys && a != b :: ids(a) != ids(b)
  }

  function RowS3Keys(rows: Rows): set<string> {
    set k | k in rows :: rows[k].item.s3Key
  }

  lemma CatalogKeyInjective(a: string, b: string)
    ensures CatalogKey(a) == CatalogKey(b) <==> a == b
  {
    PrefixOrder("SOURCE#", a, b);
  }

  lemma CanonicalFits(rows: Rows, items: seq<CatalogItem>, ids: string -> string)
    requires Canonical(rows, ids) && BuiltWith(items, ids) && DistinctS3Keys(items)
    requires CollisionFree(ids, S3Keys(items) + RowS3Keys(rows))
    ensures Fits(rows, items) && NoCollision(items)
  {
    forall i, j | 0 <= i < j < |items| ensures CatalogKey(items[i].sourceId) != CatalogKey(items[j].sourceId) {
      assert items[i].s3Key in S3Keys(items) && items[j].s3Key in S3Keys(items);
      CatalogKeyInjective(items[i].sourceId, items[j].sourceId);
    }
    forall k | k in rows ensures rows[k].item.s3Key in S3Keys(items) <==> HasKey(items, k) {
      assert rows[k].item.s3Key in RowS3Keys(rows);
      if HasKey(items, k) {
        var i :| 0 <= i < |items| && k == CatalogKey(items[i].sourceId);
        assert items[i].s3Key in S3Keys(items);
        CatalogKeyInjective(items[i].sourceId, rows[k].item.sourceId);
      }
    }
  }

  /** With canonical keys and no collisions no interruption loses a stored PDF that is still current: it stays under
      its key, and every row is as it was or as the catalogue has it. */
  lemma CurrentPdfsKept(rows: Rows, items: seq<CatalogItem>, existing: seq<Existing>, done: seq<Request>,
                        ids: string -> string)
    requires Canonical(rows, ids) && BuiltWith(items, ids) && DistinctS3Keys(items)
    requires CollisionFree(ids, S3Keys(items) + RowS3Keys(rows))
    requires Scans(existing, rows) && Partial(BuildWriteRequests(items, existing), done)
    ensures var now := ApplyRequests(rows, done);
            && (forall k | k in rows && rows[k].item.s3Key in S3Keys(items) ::
                 k in now && now[k].item.s3Key == rows[k].item.s3Key)
            && (forall k | k in now :: OldOrListed(rows, now, items, k))
  {
    var now := ApplyRequests(rows, done);
    CanonicalFits(rows, items, ids);
    InterruptedSync(rows, items, existing, done);
    forall k | k in rows && rows[k].item.s3Key in S3Keys(items)
      ensures k in now && now[k].item.s3Key == rows[k].item.s3Key
    {
      CanonicalAnchors(rows, items, ids, k);
      AnchorHolds(rows, items, existing, done, k);
    }
  }

  lemma CanonicalAnchors(rows: Rows, items: seq<CatalogItem>, ids: string -> string, k: PrimaryKey)
    requires Canonical(rows, ids) && BuiltWith(items, ids) && k in rows
    requires CollisionFree(ids, S3Keys(items) + RowS3Keys(rows))
    ensures KeyOnlyFor(items, k, rows[k].item.s3Key)
  {
    forall i | 0 <= i < |items| && k == CatalogKey(items[i].sourceId) ensures items[i].s3Key == rows[k].item.s3Key {
      CatalogKeyInjective(items[i].sourceId, rows[k].item.sourceId);
      assert items[i].s3Key in S3Keys(items) && rows[k].item.s3Key in RowS3Keys(rows);
    }
  }

  /** Syncs keep canonical tables canonical, wherever they stop. */
  lemma {:induction false} StaysCanonical(rows: Rows, items: seq<CatalogItem>, existing: seq<Existing>,
                                          done: seq<Request>, ids: string -> string)
    requires Canonical(rows, ids) && BuiltWith(items, ids) && Scans(existing, rows)
    requires Partial(BuildWriteRequests(items, existing), done)
    ensures Canonical(ApplyRequests(rows, done), ids)
    ensures RowS3Keys(ApplyRequests(rows, done)) <= RowS3Keys(rows) + S3Keys(items)
  {
    if done != [] {
      var n := |done| - 1;
      assert done == done[..n] + [done[n]];
      StaysCanonical(rows, items, existing, done[..n], ids);
      assert done[n] in done;
      PlannedRequest(rows, items, existing, done[n]);
      CanonicalRequest(ApplyRequests(rows, done[..n]), items, done[n], ids);
    }
  }

  lemma CanonicalRequest(rows: Rows, items: seq<CatalogItem>, r: Request, ids: string -> string)
    requires Canonical(rows, ids) && BuiltWith(items, ids)
    requires r.DeleteRow? || exists i :: 0 <= i < |items| && r == PutOf(items[i])
    ensures Canonical(ApplyRequest(rows, r), ids)
    ensures RowS3Keys(ApplyRequest(rows, r)) <= RowS3Keys(rows) + S3Keys(items)
  {
    var after := ApplyRequest(rows, r);
    if r.PutRow? {
      var i :| 0 <= i < |items| && r == PutOf(items[i]);
      assert items[i].s3Key in S3Keys(items);
    }
    forall s | s in RowS3Keys(after) ensures s in RowS3Keys(rows) + S3Keys(items) {
      var k :| k in after && after[k].item.s3Key == s;
    }
  }

  /** One attempt: the listing it saw, the order in which it scanned the table, the requests it carried out. */
  datatype Attempt = Attempt(items: seq<CatalogItem>, existing: seq<Existing>, done: seq<Request>)

  /** A history of attempts, each of which may have seen another listing and stopped anywhere. */
  ghost predicate History(rows: Rows, attempts: seq<Attempt>, ids: string -> string) {
    attempts == [] ||
    var last, before := attempts[|attempts| - 1], attempts[..|attempts| - 1];
    && History(rows, before, ids)
    && BuiltWith(last.items, ids) && Scans(last.existing, After(rows, before))
    && Partial(BuildWriteRequests(last.items, last.existing), last.done)
  }

  function After(rows: Rows, attempts: seq<Attempt>): Rows {
    if attempts == [] then rows
    else ApplyRequests(After(rows, attempts[..|attempts| - 1]), attempts[|attempts| - 1].done)
  }

  function SeenS3Keys(rows: Rows, attempts: seq<Attempt>): set<string> {
    if attempts == [] then RowS3Keys(rows)
    else SeenS3Keys(rows, attempts[..|attempts| - 1]) + S3Keys(attempts[|attempts| - 1].items)
  }

  lemma {:induction false} HistoryStaysCanonical(rows: Rows, attempts: seq<Attempt>, ids: string -> string)
    requires Canonical(rows, ids) && History(rows, attempts, ids)
    ensures Canonical(After(rows, attempts), ids) && RowS3Keys(After(rows, attempts)) <= SeenS3Keys(rows, attempts)
  {
    if attempts != [] {
      var last, before := attempts[|attempts| - 1], attempts[..|attempts| - 1];
      HistoryStaysCanonical(rows, before, ids);
      StaysCanonical(After(rows, before), last.items, last.existing, last.done, ids);
    }
  }

  /** After any history of interrupted syncs against any listings, one complete sync yields exactly the catalogue
      of the listing it saw, provided only that the source ids of the bucket keys involved do not collide. */
  lemma Convergence(rows: Rows, attempts: seq<Attempt>, items: seq<CatalogItem>, existing: seq<Existing>,
                    ids: string -> string)
    requires Canonical(rows, ids) && History(rows, attempts, ids)
    requires BuiltWith(items, ids) && DistinctS3Keys(items) && Scans(existing, After(rows, attempts))
    requires CollisionFree(ids, SeenS3Keys(rows, attempts) + S3Keys(items))
    ensures IsCatalogue(Synced(After(rows, attempts), items, existing), items)
  {
    HistoryStaysCanonical(rows, attempts, ids);
    CanonicalFits(After(rows, attempts), items, ids);
    SyncIsExact(After(rows, attempts), items, existing);
  }

  function PdfKeys(objects: seq<S3Object>): set<string> {
    set o | o in objects && IsPdfKey(o.key) :: o.key
  }

  /** The items are those of the PDFs listed, each built from its object. */
  predicate BuiltFrom(items: seq<CatalogItem>, objects: seq<S3Object>, ids: string -> string,
                      stamp: string -> string) {
    && (forall item | item in items :: exists o :: o in objects && IsItemOf(item, o, ids, stamp))
    && (forall o | o in objects && IsPdfKey(o.key) :: exists item :: item in items && IsItemOf(item, o, ids, stamp))
  }

  predicate IsItemOf(item: CatalogItem, o: S3Object, ids: string -> string, stamp: string -> string) {
    IsPdfKey(o.key) && BuildItem(o, ids, stamp) == Some(item)
  }

  predicate HasNoItem(o: S3Object, ids: string -> string, stamp: string -> string) {
    IsPdfKey(o.key) && BuildItem(o, ids, stamp) == None
  }

  /** The script stops exactly when some PDF listed has no item. */
  lemma {:induction false} UnusableListing(objects: seq<S3Object>, ids: string -> string, stamp: string -> string)
    ensures ReadItems(objects, ids, stamp) == None <==> exists o :: o in objects && HasNoItem(o, ids, stamp)
  {
    hide BuildItem, IsPdfKey;
    if objects != [] {
      UnusableListing(objects[1..], ids, stamp);
      assert objects == [objects[0]] + objects[1..];
      assert objects[0] in objects;
    }
  }

  lemma {:induction false} ItemsBuilt(objects: seq<S3Object>, ids: string -> string, stamp: string -> string)
    requires ReadItems(objects, ids, stamp).Some?
    ensures BuiltFrom(ReadItems(objects, ids, stamp).value, objects, ids, stamp)
  {
    hide BuildItem, IsPdfKey;
    if objects != [] {
      ItemsBuilt(objects[1..], ids, stamp);
      var items, tail := ReadItems(objects, ids, stamp).value, ReadItems(objects[1..], ids, stamp).value;
      assert objects == [objects[0]] + objects[1..];
      if IsPdfKey(objects[0].key) {
        assert items == [items[0]] + tail && IsItemOf(items[0], objects[0], ids, stamp);
        BuiltMore(items[0], tail, objects[0], objects[1..], ids, stamp);
      } else {
        BuiltSkips(tail, objects[0], objects[1..], ids, stamp);
      }
    }
  }

  lemma BuiltMore(item: CatalogItem, items: seq<CatalogItem>, o: S3Object, objects: seq<S3Object>,
                  ids: string -> string, stamp: string -> string)
    requires IsItemOf(item, o, ids, stamp) && BuiltFrom(items, objects, ids, stamp)
    ensures BuiltFrom([item] + items, [o] + objects, ids, stamp)
  {
    hide BuildItem, IsPdfKey, IsItemOf;
    var all := [o] + objects;
    forall y | y in [item] + items ensures exists x :: x in all && IsItemOf(y, x, ids, stamp) {
      if y == item {
        assert o in all;
      } else {
        var x :| x in objects && IsItemOf(y, x, ids, stamp);
        assert x in all;
      }
    }
    forall x | x in all && IsPdfKey(x.key) ensures exists y :: y in [item] + items && IsItemOf(y, x, ids, stamp) {
      if x == o {
        assert item in [item] + items;
      } else {
        var y :| y in items && IsItemOf(y, x, ids, stamp);
        assert y in [item] + items;
      }
    }
  }

  lemma BuiltSkips(items: seq<CatalogItem>, o: S3Object, objects: seq<S3Object>, ids: string -> string,
                   stamp: string -> string)
    requires !IsPdfKey(o.key) && BuiltFrom(items, objects, ids, stamp)
    ensures BuiltFrom(items, [o] + objects, ids, stamp)
  {
    hide BuildItem, IsPdfKey, IsItemOf;
    var all := [o] + objects;
    forall y | y in items ensures exists x :: x in all && IsItemOf(y, x, ids, stamp) {
      var x :| x in objects && IsItemOf(y, x, ids, stamp);
      assert x in all;
    }
    forall x | x in all && IsPdfKey(x.key) ensures exists y :: y in items && IsItemOf(y, x, ids, stamp) {
      assert x in objects;
    }
  }

  lemma BuiltRearranged(a: seq<CatalogItem>, b: seq<CatalogItem>, objects: seq<S3Object>, ids: string -> string,
                        stamp: string -> string)
    requires multiset(a) == multiset(b) && BuiltFrom(a, objects, ids, stamp)
    ensures BuiltFrom(b, objects, ids, stamp)
  {
    hide BuildItem, IsPdfKey, IsItemOf;
    forall y ensures y in a <==> y in b {
      assert y in a <==> y in multiset(a);
      assert y in b <==> y in multiset(b);
    }
  }

  lemma SortedByKey(items: seq<CatalogItem>, collation: Less<string>)
    requires WeakOrder(collation)
    ensures var sorted := SortBy(items, ByKey(collation));
            forall i, j | 0 <= i < j < |sorted| :: !collation(sorted[j].s3Key, sorted[i].s3Key)
  {
    var less := ByKey(collation);
    forall x ensures !less(x, x) {
      assert !collation(x.s3Key, x.s3Key);
    }
    forall x, y, z | less(x, y) && less(y, z) ensures less(x, z) {
      assert collation(x.s3Key, y.s3Key) && collation(y.s3Key, z.s3Key);
    }
    forall x, y, z | less(x, z) ensures less(x, y) || less(y, z) {
      assert collation(x.s3Key, z.s3Key);
      assert collation(x.s3Key, y.s3Key) || collation(y.s3Key, z.s3Key);
    }
    SortOrdered(items, less);
    var sorted := SortBy(items, less);
    forall i, j | 0 <= i < j < |sorted| ensures !collation(sorted[j].s3Key, sorted[i].s3Key) {
      assert !less(sorted[j], sorted[i]);
    }
  }

  /** What the listing gives: nothing exactly when some PDF has no item, otherwise the items of the PDFs, by bucket key
      in the order of the collation. */
  lemma CatalogueBuilt(objects: seq<S3Object>, ids: string -> string, stamp: string -> string, collation: Less<string>)
    ensures var built := BuildCatalogItems(objects, ids, stamp, collation);
            && (built == None <==> exists o :: o in objects && HasNoItem(o, ids, stamp))
            && (built.Some? ==> BuiltFrom(built.value, objects, ids, stamp))
            && (built.Some? && WeakOrder(collation) ==>
                 forall i, j | 0 <= i < j < |built.value| :: !collation(built.value[j].s3Key, built.value[i].s3Key))
  {
    UnusableListing(objects, ids, stamp);
    var items := ReadItems(objects, ids, stamp);
    if items.Some? {
      ItemsBuilt(objects, ids, stamp);
      hide BuildItem, IsPdfKey, IsItemOf, BuiltFrom, HasNoItem, ReadItems;
      var built := BuildCatalogItems(objects, ids, stamp, collation).value;
      BuiltRearranged(items.value, built, objects, ids, stamp);
      if WeakOrder(collation) {
        SortedByKey(items.value, collation);
        assert built == SortBy(items.value, ByKey(collation));
        forall i, j | 0 <= i < j < |built| ensures !collation(built[j].s3Key, built[i].s3Key) {
        }
      }
    }
  }

  lemma {:induction false} ItemsRead(objects: seq<S3Object>, ids: string -> string, stamp: string -> string)
    requires ReadItems(objects, ids, stamp).Some?
    ensures var items := ReadItems(objects, ids, stamp).value;
            && BuiltWith(items, ids) && S3Keys(items) == PdfKeys(objects)
            && ((forall i, j | 0 <= i < j < |objects| :: objects[i].key != objects[j].key) ==> DistinctS3Keys(items))
  {
    if objects != [] {
      ItemsRead(objects[1..], ids, stamp);
      var items, tail := ReadItems(objects, ids, stamp).value, ReadItems(objects[1..], ids, stamp).value;
      assert objects == [objects[0]] + objects[1..];
      if IsPdfKey(objects[0].key) {
        assert items[0].s3Key == objects[0].key && items[1..] == tail;
        ConsS3Keys(items);
        forall j | 0 <= j < |tail| ensures tail[j].s3Key in PdfKeys(objects[1..]) {
          assert tail[j].s3Key in S3Keys(tail);
        }
      }
    }
  }

  /** Sorting moves items about and does nothing else to them. */
  lemma RearrangedItems(a: seq<CatalogItem>, b: seq<CatalogItem>, ids: string -> string)
    requires multiset(a) == multiset(b)
    ensures S3Keys(a) == S3Keys(b)
    ensures BuiltWith(a, ids) ==> BuiltWith(b, ids)
    ensures DistinctS3Keys(a) ==> DistinctS3Keys(b)
  {
    forall s ensures s in S3Keys(a) <==> s in S3Keys(b) {
      if s in S3Keys(a) {
        var i :| 0 <= i < |a| && a[i].s3Key == s;
        assert a[i] in multiset(b);
      }
      if s in S3Keys(b) {
        var i :| 0 <= i < |b| && b[i].s3Key == s;
        assert b[i] in multiset(a);
      }
    }
    forall i | 0 <= i < |b| ensures b[i] in a {
      assert b[i] in multiset(a);
    }
    if DistinctS3Keys(a) {
      DistinctRearranged(a, b);
    }
  }

  lemma {:induction false} Once(a: seq<CatalogItem>, x: CatalogItem)
    requires DistinctS3Keys(a)
    ensures multiset(a)[x] <= 1
  {
    if a != [] {
      var n := |a| - 1;
      assert a == a[..n] + [a[n]];
      Once(a[..n], x);
      if x == a[n] {
        assert x !in a[..n];
      }
    }
  }

  lemma DistinctRearranged(a: seq<CatalogItem>, b: seq<CatalogItem>)
    requires multiset(a) == multiset(b) && DistinctS3Keys(a)
    ensures DistinctS3Keys(b)
  {
    forall i, j | 0 <= i < j < |b| ensures b[i].s3Key != b[j].s3Key {
      assert b[i] in multiset(a) && b[j] in multiset(a);
      if b[i] == b[j] {
        Once(a, b[i]);
        TwiceInSeq(b, i, j);
      }
    }
  }

  /** What the listing determines about the catalogue, whatever the collation. */
  lemma BuiltItems(objects: seq<S3Object>, ids: string -> string, stamp: string -> string, collation: Less<string>)
    requires BuildCatalogItems(objects, ids, stamp, collation).Some?
    ensures var items := BuildCatalogItems(objects, ids, stamp, collation).value;
            && BuiltWith(items, ids) && S3Keys(items) == PdfKeys(objects)
            && ((forall i, j | 0 <= i < j < |objects| :: objects[i].key != objects[j].key) ==> DistinctS3Keys(items))
  {
    ItemsRead(objects, ids, stamp);
    RearrangedItems(ReadItems(objects, ids, stamp).value, BuildCatalogItems(objects, ids, stamp, collation).value, ids);
  }

  /** From a canonical table and a listing without repeated keys, the sync leaves exactly one row for every
      PDF listed, as the listing describes it, and no other row. */
  lemma ListingBecomesCatalogue(rows: Rows, objects: seq<S3Object>, ids: string -> string, stamp: string -> string,
                                collation: Less<string>, existing: seq<Existing>)
    requires Canonical(rows, ids) && Scans(existing, rows)
    requires forall i, j | 0 <= i < j < |objects| :: objects[i].key != objects[j].key
    requires BuildCatalogItems(objects, ids, stamp, collation).Some?
    requires CollisionFree(ids, PdfKeys(objects) + RowS3Keys(rows))
    ensures var items := BuildCatalogItems(objects, ids, stamp, collation).value;
            var after := Synced(rows, items, existing);
            && IsCatalogue(after, items)
            && after.Keys == (set s | s in PdfKeys(objects) :: PrimaryKey("SOURCE#" + ids(s), "SOURCE"))
            && NamesKeysOnce(BuildWriteRequests(items, existing))
  {
    hide IsPdfKey, BuildItem, ReadItems, BuildCatalogItems, Synced, BuildWriteRequests, NamesKeysOnce, Scans;
    hide IsCatalogue;
    var items := BuildCatalogItems(objects, ids, stamp, collation).value;
    var after := Synced(rows, items, existing);
    BuiltItems(objects, ids, stamp, collation);
    CanonicalFits(rows, items, ids);
    SyncIsExact(rows, items, existing);
    CatalogueKeys(after, items, ids);
    PlanNamesKeysOnce(rows, items, existing);
  }

  /** The PDF's row is under the key of its source id, holds its item and has not been indexed. */
  predicate IsRowOf(rows: Rows, o: S3Object, ids: string -> string, stamp: string -> string)
    requires IsPdfKey(o.key)
  {
    var k := PrimaryKey("SOURCE#" + ids(o.key), "SOURCE");
    k in rows && BuildItem(o, ids, stamp) == Some(rows[k].item) && rows[k].ragIndexedAt == None
  }

  lemma RowOfPdf(rows: Rows, items: seq<CatalogItem>, objects: seq<S3Object>, o: S3Object, ids: string -> string,
                 stamp: string -> string)
    requires IsCatalogue(rows, items) && BuiltFrom(items, objects, ids, stamp) && o in objects && IsPdfKey(o.key)
    requires BuiltWith(items, ids)
    ensures IsRowOf(rows, o, ids, stamp)
  {
    hide IsPdfKey;
    var item :| item in items && IsItemOf(item, o, ids, stamp);
    var i :| 0 <= i < |items| && items[i] == item;
    assert item.s3Key == o.key;
  }

  /** Each of these rows shows its PDF as it is in the bucket. */
  lemma ListedPdfsHaveRows(rows: Rows, objects: seq<S3Object>, ids: string -> string, stamp: string -> string,
                           collation: Less<string>, existing: seq<Existing>)
    requires Canonical(rows, ids) && Scans(existing, rows)
    requires forall i, j | 0 <= i < j < |objects| :: objects[i].key != objects[j].key
    requires BuildCatalogItems(objects, ids, stamp, collation).Some?
    requires CollisionFree(ids, PdfKeys(objects) + RowS3Keys(rows))
    ensures var after := Synced(rows, BuildCatalogItems(objects, ids, stamp, collation).value, existing);
            forall o | o in objects && IsPdfKey(o.key) :: IsRowOf(after, o, ids, stamp)
  {
    BuiltItems(objects, ids, stamp, collation);
    ListingBecomesCatalogue(rows, objects, ids, stamp, collation, existing);
    CatalogueBuilt(objects, ids, stamp, collation);
    var items := BuildCatalogItems(objects, ids, stamp, collation).value;
    var after := Synced(rows, items, existing);
    hide *;
    forall o | o in objects && IsPdfKey(o.key) ensures IsRowOf(after, o, ids, stamp) {
      RowOfPdf(after, items, objects, o, ids, stamp);
    }
  }

  lemma CatalogueKeys(rows: Rows, items: seq<CatalogItem>, ids: string -> string)
    requires IsCatalogue(rows, items) && BuiltWith(items, ids)
    ensures rows.Keys == set s | s in S3Keys(items) :: CatalogKey(ids(s))
  {
    forall k ensures k in rows <==> k in (set s | s in S3Keys(items) :: CatalogKey(ids(s))) {
      if k in rows {
        var i :| 0 <= i < |items| && k == CatalogKey(items[i].sourceId);
        assert items[i].s3Key in S3Keys(items);
      }
    }
  }

  lemma ConsS3Keys(items: seq<CatalogItem>)
    requires items != []
    ensures S3Keys(items) == {items[0].s3Key} + S3Keys(items[1..])
  {
    forall s ensures s in S3Keys(items) <==> s == items[0].s3Key || s in S3Keys(items[1..]) {
      if s in S3Keys(items) {
        var i :| 0 <= i < |items| && items[i].s3Key == s;
        if i > 0 { assert items[1..][i - 1] == items[i]; }
      }
      if s in S3Keys(items[1..]) {
        var i :| 0 <= i < |items[1..]| && items[1..][i].s3Key == s;
        assert items[i + 1].s3Key == s;
      }
    }
  }

  // ----- batches

  predicate NamesKeysOnce(rs: seq<Request>) {
    forall i, j | 0 <= i < j < |rs| :: rs[i].key != rs[j].key
  }

  lemma {:induction false} DeletesNameKeysOnce(current: set<string>, existing: seq<Existing>)
    requires forall i, j | 0 <= i < j < |existing| :: existing[i].key != existing[j].key
    ensures NamesKeysOnce(Deletes(current, existing))
  {
    if existing != [] {
      var tail := existing[1..];
      DeletesNameKeysOnce(current, tail);
      forall r | r in Deletes(current, tail) ensures r.key != existing[0].key {
        DeletesAre(current, tail, r);
        var i :| 0 <= i < |tail| && tail[i].key == r.key;
        assert existing[i + 1] == tail[i];
      }
    }
  }

  /** The plan names no key twice, so no batch is refused for naming one twice, exactly when no stale row
      lies under a key of the catalogue. */
  lemma PlanNamesKeysOnce(rows: Rows, items: seq<CatalogItem>, existing: seq<Existing>)
    requires NoCollision(items) && Scans(existing, rows)
    ensures NamesKeysOnce(BuildWriteRequests(items, existing)) <==>
              forall k | k in rows && HasKey(items, k) :: !Stale(rows, items, k)
  {
    if NamesKeysOnce(BuildWriteRequests(items, existing)) {
      forall k | k in rows && HasKey(items, k) ensures !Stale(rows, items, k) {
        NamedOnceIsKept(rows, items, existing, k);
      }
    }
    if forall k | k in rows && HasKey(items, k) :: !Stale(rows, items, k) {
      KeptIsNamedOnce(rows, items, existing);
    }
  }

  lemma NamedOnceIsKept(rows: Rows, items: seq<CatalogItem>, existing: seq<Existing>, k: PrimaryKey)
    requires NamesKeysOnce(BuildWriteRequests(items, existing)) && Scans(existing, rows) && HasKey(items, k)
    ensures !Stale(rows, items, k)
  {
    hide S3Keys, Stale, Scans;
    var puts, deletes := Puts(items), Deletes(S3Keys(items), existing);
    var plan := puts + deletes;
    DeletesAreStale(rows, items, existing, k);
    var i :| 0 <= i < |items| && k == CatalogKey(items[i].sourceId);
    assert plan[i].key == k;
    forall j | 0 <= j < |deletes| ensures deletes[j].key != k {
      assert plan[|puts| + j] == deletes[j];
    }
  }

  lemma KeptIsNamedOnce(rows: Rows, items: seq<CatalogItem>, existing: seq<Existing>)
    requires NoCollision(items) && Scans(existing, rows)
    requires forall k | k in rows && HasKey(items, k) :: !Stale(rows, items, k)
    ensures NamesKeysOnce(BuildWriteRequests(items, existing))
  {
    var puts, deletes := Puts(items), Deletes(S3Keys(items), existing);
    DeletesNameKeysOnce(S3Keys(items), existing);
    forall d | d in deletes ensures !HasKey(items, d.key) {
      DeletesAre(S3Keys(items), existing, d);
      DeletesAreStale(rows, items, existing, d.key);
    }
    hide Scans, Stale, S3Keys, Deletes;
    forall i | 0 <= i < |puts| ensures HasKey(items, puts[i].key) {
      assert puts[i].key == CatalogKey(items[i].sourceId);
    }
    assert forall j | 0 <= j < |deletes| :: deletes[j] in deletes;
  }

  // ----- the script

  class LibraryTable {
    var rows: Rows
    ghost var faults: nat // batches of at most 25 requests that failed or were left incomplete

    /** Every row, in whatever order the table stores them. */
    method Scan() returns (existing: seq<Existing>)
      ensures Scans(existing, rows)
    {
      existing := [];
      var rest := rows.Keys;
      while rest != {}
        invariant rest <= rows.Keys
        invariant forall i, j | 0 <= i < j < |existing| :: existing[i].key != existing[j].key
        invariant forall i | 0 <= i < |existing| ::
                    existing[i].key in rows && existing[i].key !in rest &&
                      existing[i].s3Key == rows[existing[i].key].item.s3Key
        invariant forall k | k in rows && k !in rest :: exists i :: 0 <= i < |existing| && existing[i].key == k
        decreases |rest|
      {
        var k :| k in rest;
        ghost var before := existing;
        existing := existing + [Existing(k, rows[k].item.s3Key)];
        rest := rest - {k};
        forall j | j in rows && j !in rest ensures exists i :: 0 <= i < |existing| && existing[i].key == j {
          if j == k {
            assert existing[|before|].key == k;
          } else {
            var i :| 0 <= i < |before| && before[i].key == j;
            assert existing[i].key == j;
          }
        }
      }
    }

    /** Refuses more than 25 requests and repeated keys; otherwise carries out some of the requests, in any
        order, and hands back the rest. */
    method BatchWrite(batch: seq<Request>)
      returns (fault: bool, unprocessed: seq<seq<Request>>, ghost done: seq<Request>)
      modifies this
      ensures rows == ApplyRequests(old(rows), done) && Partial(batch, done)
      ensures !fault && Flatten(unprocessed) == [] ==> rows == ApplyRequests(old(rows), batch) && Accepts(batch)
      ensures faults == old(faults) + (if Accepts(batch) && (fault || Flatten(unprocessed) != []) then 1 else 0)
    {
      done, unprocessed := [], [];
      fault := *;
      if !Accepts(batch) {
        return true, [], [];
      }
      if fault {
        faults := faults + 1;
        return;
      }
      ghost var before := rows;
      var left := batch;
      while left != []
        invariant multiset(done) + multiset(left) == multiset(batch) && unprocessed == []
        invariant rows == ApplyRequests(before, done) && faults == old(faults)
        decreases |left|
      {
        var leave := *;
        if leave {
          faults := faults + 1;
          unprocessed := [left];
          FlattenAppend([], left);
          PartOf(batch, done, left);
          return;
        }
        var i: nat :| i < |left|;
        TakenOut(left, i);
        rows := ApplyRequest(rows, left[i]);
        done := done + [left[i]];
        left := left[..i] + left[i + 1..];
      }
      PartOf(batch, done, left);
      OrderIrrelevant(before, batch, done);
    }
  }

  /** What a batch may contain. */
  predicate Accepts(batch: seq<Request>) {
    |batch| <= 25 && NamesKeysOnce(batch)
  }

  lemma TakenOut(s: seq<Request>, i: nat)
    requires i < |s|
    ensures multiset(s) == multiset{s[i]} + multiset(s[..i] + s[i + 1..])
  {
    assert s == s[..i] + [s[i]] + s[i + 1..];
  }

  lemma PartOf(batch: seq<Request>, done: seq<Request>, left: seq<Request>)
    requires multiset(done) + multiset(left) == multiset(batch)
    ensures Partial(batch, done)
  {
    forall r | r in done ensures r in batch {
      assert r in multiset(batch);
    }
  }

  predicate TookEffect(after: Rows, r: Request) {
    match r
    case PutRow(k, row) => k in after && after[k] == row
    case DeleteRow(k) => k !in after
  }

  predicate Unnamed(rs: seq<Request>, k: PrimaryKey) {
    forall r | r in rs :: r.key != k
  }

  /** What is carried out last takes effect, and takes none back that is for another key. */
  lemma LastTakesEffect(rows: Rows, last: Request)
    ensures TookEffect(ApplyRequest(rows, last), last)
    ensures forall r: Request | r.key != last.key && TookEffect(rows, r) :: TookEffect(ApplyRequest(rows, last), r)
    ensures forall k | k != last.key ::
              (k in ApplyRequest(rows, last) <==> k in rows) && (k in rows ==> ApplyRequest(rows, last)[k] == rows[k])
  {
  }

  /** Requests for different keys all take effect, and nothing else does. */
  lemma {:induction false} AllTakeEffect(rows: Rows, rs: seq<Request>)
    requires NamesKeysOnce(rs)
    ensures forall r | r in rs :: TookEffect(ApplyRequests(rows, rs), r)
    ensures forall k | Unnamed(rs, k) ::
              (k in ApplyRequests(rows, rs) <==> k in rows) && (k in rows ==> ApplyRequests(rows, rs)[k] == rows[k])
  {
    if rs != [] {
      var n := |rs| - 1;
      var front, last := rs[..n], rs[n];
      assert rs == front + [last] && last in rs;
      AllTakeEffect(rows, front);
      forall r | r in front ensures r.key != last.key {
        var i :| 0 <= i < n && front[i] == r;
        assert rs[i] == r;
      }
      hide TookEffect, ApplyRequest;
      LastTakesEffect(ApplyRequests(rows, front), last);
      forall k | Unnamed(rs, k) ensures Unnamed(front, k) && k != last.key {
      }
    }
  }

  lemma {:induction false} KeysOnceCount(rs: seq<Request>, r: Request)
    requires NamesKeysOnce(rs)
    ensures multiset(rs)[r] <= 1
  {
    if rs != [] {
      var n := |rs| - 1;
      assert rs == rs[..n] + [rs[n]];
      KeysOnceCount(rs[..n], r);
      if r == rs[n] {
        assert r !in rs[..n];
      }
    }
  }

  lemma StillOnce(a: seq<Request>, b: seq<Request>)
    requires multiset(a) == multiset(b) && NamesKeysOnce(a)
    ensures NamesKeysOnce(b)
  {
    forall i, j | 0 <= i < j < |b| ensures b[i].key != b[j].key {
      assert b[i] in multiset(a) && b[j] in multiset(a);
      if b[i] == b[j] {
        KeysOnceCount(a, b[i]);
        TwiceInSeq(b, i, j);
      }
    }
  }

  /** Requests for different keys may be carried out in any order. */
  lemma OrderIrrelevant(rows: Rows, a: seq<Request>, b: seq<Request>)
    requires multiset(a) == multiset(b) && NamesKeysOnce(a)
    ensures ApplyRequests(rows, a) == ApplyRequests(rows, b)
  {
    StillOnce(a, b);
    AllTakeEffect(rows, a);
    AllTakeEffect(rows, b);
    forall r ensures r in a <==> r in b {
      assert r in a <==> r in multiset(b);
    }
    var after, other := ApplyRequests(rows, a), ApplyRequests(rows, b);
    forall k ensures (k in after <==> k in other) && (k in after && k in other ==> after[k] == other[k]) {
      if exists r :: r in a && r.key == k {
        var r :| r in a && r.key == k;
        assert TookEffect(after, r) && TookEffect(other, r);
      } else {
        assert Unnamed(a, k) && Unnamed(b, k);
      }
    }
  }

  /** Counts what the answer to a batch hands back. */
  method CountUnprocessed(lists: seq<seq<Request>>) returns (count: nat)
    ensures count == |Flatten(lists)|
  {
    count := 0;
    for i := 0 to |lists|
      invariant count == |Flatten(lists[..i])|
    {
      assert lists[..i + 1][..i] == lists[..i];
      count := count + |lists[i]|;
    }
    assert lists[..|lists|] == lists;
  }

  lemma {:induction false} ChunkNamesKeysOnce(chunks: seq<seq<Request>>, i: nat)
    requires i < |chunks| && NamesKeysOnce(Flatten(chunks))
    ensures NamesKeysOnce(chunks[i])
  {
    var n := |chunks| - 1;
    var front, last := Flatten(chunks[..n]), chunks[n];
    assert Flatten(chunks) == front + last;
    if i < n {
      assert forall j | 0 <= j < |front| :: Flatten(chunks)[j] == front[j];
      ChunkNamesKeysOnce(chunks[..n], i);
    } else {
      assert forall j | 0 <= j < |last| :: Flatten(chunks)[|front| + j] == last[j];
    }
  }

  lemma FlattenPartial(plan: seq<Request>, chunks: seq<seq<Request>>, i: nat)
    requires Flatten(chunks) == plan && i < |chunks|
    ensures Partial(plan, chunks[i])
  {
    ChunkInPlan(chunks, i);
  }

  lemma {:induction false} ChunkInPlan(chunks: seq<seq<Request>>, i: nat)
    requires i < |chunks|
    ensures forall r | r in chunks[i] :: r in Flatten(chunks)
  {
    var n := |chunks| - 1;
    if i < n {
      ChunkInPlan(chunks[..n], i);
    }
  }

  /** Writes the plan batch by batch and stops at the first batch that fails or is left incomplete. */
  method ApplyInBatches(table: LibraryTable, plan: seq<Request>)
    returns (ok: bool, ghost done: seq<Request>, ghost batches: seq<seq<Request>>)
    modifies table
    ensures CutInto(batches, plan, 25) && forall i | 0 <= i < |batches| - 1 :: |batches[i]| == 25
    ensures table.rows == ApplyRequests(old(table.rows), done) && Partial(plan, done)
    ensures ok ==> table.rows == ApplyRequests(old(table.rows), plan) && table.faults == old(table.faults)
    ensures table.faults == old(table.faults) && NamesKeysOnce(plan) ==> ok
  {
    hide ApplyRequests, NamesKeysOnce;
    done := [];
    NothingApplied(table.rows);
    var chunks := ChunkRequests(plan, BATCH_WRITE_LIMIT);
    batches := chunks;
    ghost var before := table.rows;
    var i := 0;
    while i < |chunks|
      invariant 0 <= i <= |chunks| && Partial(plan, done) && table.faults == old(table.faults)
      invariant table.rows == ApplyRequests(before, done) == ApplyRequests(before, Flatten(chunks[..i]))
    {
      var fault, unprocessed;
      ghost var part;
      fault, unprocessed, part := table.BatchWrite(chunks[i]);
      FlattenPartial(plan, chunks, i);
      ApplyAppend(before, done, part);
      done := done + part;
      if NamesKeysOnce(plan) { ChunkNamesKeysOnce(chunks, i); }
      if fault {
        return false, done, batches;
      }
      var count := CountUnprocessed(unprocessed);
      if count > 0 {
        return false, done, batches;
      }
      FlattenAppend(chunks[..i], chunks[i]);
      ApplyAppend(before, Flatten(chunks[..i]), chunks[i]);
      assert chunks[..i + 1] == chunks[..i] + [chunks[i]];
      i := i + 1;
    }
    assert chunks[..i] == chunks;
    ok := true;
  }

  lemma NothingApplied(rows: Rows)
    ensures ApplyRequests(rows, []) == rows
  {
  }

  /** The sync. When it succeeds the table is as if the whole plan had been applied in order; when it stops, some
      of the plan was applied. It stops only for an unusable listing, a fault, or a plan that names a key twice. */
  method Sync(table: LibraryTable, objects: seq<S3Object>, ids: string -> string, stamp: string -> string,
              collation: Less<string>)
    returns (ok: bool, ghost existing: seq<Existing>, ghost done: seq<Request>)
    modifies table
    ensures Scans(existing, old(table.rows))
    ensures ok ==> BuildCatalogItems(objects, ids, stamp, collation).Some? && table.faults == old(table.faults)
    ensures ok ==>
              table.rows == Synced(old(table.rows), BuildCatalogItems(objects, ids, stamp, collation).value, existing)
    ensures var built := BuildCatalogItems(objects, ids, stamp, collation);
            built.Some? && table.faults == old(table.faults) ==>
              (NamesKeysOnce(BuildWriteRequests(built.value, existing)) ==> ok)
    ensures BuildCatalogItems(objects, ids, stamp, collation).None? ==> table.rows == old(table.rows)
    ensures BuildCatalogItems(objects, ids, stamp, collation).Some? ==>
              table.rows == ApplyRequests(old(table.rows), done) &&
                Partial(BuildWriteRequests(BuildCatalogItems(objects, ids, stamp, collation).value, existing), done)
  {
    done := [];
    var built := BuildCatalogItems(objects, ids, stamp, collation);
    var scanned := table.Scan();
    existing := scanned;
    if built.None? {
      return false, existing, done;
    }
    var plan := BuildWriteRequests(built.value, scanned);
    if plan == [] {
      return true, existing, done;
    }
    ghost var batches;
    ok, done, batches := ApplyInBatches(table, plan);
  }
}
