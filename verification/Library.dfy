/** The library from end to end: what a reader is listed after the bucket was synchronised. */
module Library {
  import opened Text
  import opened Encoding
  import opened StableSort
  import opened Catalog
  import opened LibraryListing

  /** The attributes of a row of the library table. */
  function Attributes(row: Row): StoredFile {
    StoredFile(Some(row.item.sourceId), Some(row.item.s3Key), Some(row.item.paperTitle), Some(row.item.category),
               Some(row.item.status), Some(row.item.s3UploadedAt), row.ragIndexedAt)
  }

  /** The rows of the table, each once, in the order of these keys. */
  ghost predicate Holds(stored: seq<StoredFile>, rows: Rows, keys: seq<PrimaryKey>) {
    && |stored| == |keys|
    && (forall i, j | 0 <= i < j < |keys| :: keys[i] != keys[j])
    && (forall k :: k in keys <==> k in rows)
    && (forall i | 0 <= i < |keys| :: stored[i] == Attributes(rows[keys[i]]))
  }

  /** The file shows this PDF of the bucket: title and category are those of its path, and it is not indexed yet. */
  ghost predicate ShowsPdf(file: IndexedFile, o: S3Object, ids: string -> string, stamp: string -> string,
                           read: Readings) {
    && file.s3Key == o.key && file.status == "uploaded" && file.ragIndexedAt == None
    && read.uuid(ids(o.key)) == Some(file.sourceId) && read.date(stamp(o.lastModified)) == Some(file.s3UploadedAt)
    && "documents/" <= o.key && NamedByPath(file.name, file.category, Pieces(o.key[10..]))
  }

  /** The category is the outermost folder with a name, the title the file name without its extension. */
  ghost predicate NamedByPath(title: string, category: string, pieces: seq<string>)
    requires pieces != []
  {
    && |pieces[|pieces| - 1]| >= 4
    && title == pieces[|pieces| - 1][..|pieces[|pieces| - 1]| - 4]
    && exists i: nat :: IsOutermost(pieces, i) && category == pieces[i]
  }

  lemma {:induction false} SomeOutermost(pieces: seq<string>, n: nat) returns (i: nat)
    requires n <= |pieces| - 1 && exists j :: 0 <= j < n && pieces[j] != ""
    ensures IsOutermost(pieces, i)
  {
    if j :| 0 <= j < n - 1 && pieces[j] != "" {
      i := SomeOutermost(pieces, n - 1);
    } else {
      i := n - 1;
    }
  }

  /** What the path of a PDF with an item gives. */
  lemma ItemNamed(o: S3Object, ids: string -> string, stamp: string -> string)
    requires IsPdfKey(o.key) && BuildItem(o, ids, stamp).Some?
    ensures var item := BuildItem(o, ids, stamp).value;
            && item.sourceId == ids(o.key) && item.s3Key == o.key && item.status == "uploaded"
            && item.s3UploadedAt == stamp(o.lastModified)
            && "documents/" <= o.key && NamedByPath(item.paperTitle, item.category, Pieces(o.key[10..]))
  {
    hide BuildItem, Pieces, Path, IsPdfKey, IsOutermost;
    PdfKeysAre(o.key);
    var pieces := Pieces(o.key[10..]);
    PathOfPieces(o.key[10..]);
    assert "documents/" + Path(pieces) == o.key by {
      PrefixCut(o.key);
    }
    ItemOfPath(pieces, o.lastModified, ids, stamp);
    var i := SomeOutermost(pieces, |pieces| - 1);
    ByOutermost(BuildItem(o, ids, stamp).value, pieces, i);
  }

  lemma PrefixCut(key: string)
    requires "documents/" <= key
    ensures |key| >= 10 && key == "documents/" + key[10..]
  {
  }

  lemma ByOutermost(item: CatalogItem, pieces: seq<string>, i: nat)
    requires pieces != [] && IsOutermost(pieces, i) && |pieces[|pieces| - 1]| >= 4
    requires item.category == pieces[i]
    requires item.paperTitle == pieces[|pieces| - 1][..|pieces[|pieces| - 1]| - 4]
    ensures NamedByPath(item.paperTitle, item.category, pieces)
  {
  }

  lemma RowShowsPdf(file: IndexedFile, row: Row, o: S3Object, ids: string -> string, stamp: string -> string,
                    read: Readings)
    requires IsPdfKey(o.key) && BuildItem(o, ids, stamp) == Some(row.item) && row.ragIndexedAt == None
    requires Shows(file, Attributes(row), read)
    ensures ShowsPdf(file, o, ids, stamp, read)
  {
    ItemNamed(o, ids, stamp);
    hide BuildItem, IsPdfKey, NamedByPath;
  }

  /** The sync, complete, of a listing of distinct keys, from a table with canonical keys. */
  ghost predicate SyncedTo(after: Rows, rows: Rows, objects: seq<S3Object>, ids: string -> string,
                           stamp: string -> string, collation: Less<string>, existing: seq<Existing>) {
    && Canonical(rows, ids) && Scans(existing, rows)
    && (forall i, j | 0 <= i < j < |objects| :: objects[i].key != objects[j].key)
    && CollisionFree(ids, PdfKeys(objects) + RowS3Keys(rows))
    && var built := BuildCatalogItems(objects, ids, stamp, collation);
    && built.Some? && after == Synced(rows, built.value, existing)
  }

  /** The rows are those of the PDFs of the bucket. */
  ghost predicate OfBucket(rows: Rows, objects: seq<S3Object>, ids: string -> string, stamp: string -> string) {
    && (forall o | o in objects && IsPdfKey(o.key) :: IsRowOf(rows, o, ids, stamp))
    && (forall k | k in rows ::
         exists o :: o in objects && IsPdfKey(o.key) && k == PrimaryKey("SOURCE#" + ids(o.key), "SOURCE"))
  }

  lemma SyncedRowsAreOfBucket(after: Rows, rows: Rows, objects: seq<S3Object>, ids: string -> string,
                              stamp: string -> string, collation: Less<string>, existing: seq<Existing>)
    requires SyncedTo(after, rows, objects, ids, stamp, collation, existing)
    ensures OfBucket(after, objects, ids, stamp)
  {
    ListingBecomesCatalogue(rows, objects, ids, stamp, collation, existing);
    ListedPdfsHaveRows(rows, objects, ids, stamp, collation, existing);
    hide Synced, BuildCatalogItems, IsPdfKey, IsRowOf, IsCatalogue, NamesKeysOnce, Canonical, Scans, CollisionFree;
    forall k | k in after
      ensures exists o :: o in objects && IsPdfKey(o.key) && k == PrimaryKey("SOURCE#" + ids(o.key), "SOURCE")
    {
      var s :| s in PdfKeys(objects) && k == PrimaryKey("SOURCE#" + ids(s), "SOURCE");
      var o :| o in objects && IsPdfKey(o.key) && o.key == s;
    }
  }

  lemma EveryFileIsPdf(rows: Rows, objects: seq<S3Object>, ids: string -> string, stamp: string -> string,
                       stored: seq<StoredFile>, keys: seq<PrimaryKey>, read: Readings, files: seq<IndexedFile>, i: nat)
    returns (o: S3Object)
    requires OfBucket(rows, objects, ids, stamp) && Holds(stored, rows, keys) && Converted(files, stored, read)
    requires i < |files|
    ensures o in objects && IsPdfKey(o.key) && ShowsPdf(files[i], o, ids, stamp, read)
    ensures keys[i] == PrimaryKey("SOURCE#" + ids(files[i].s3Key), "SOURCE")
  {
    hide IsPdfKey, BuildItem, Shows, NamedByPath;
    assert keys[i] in keys;
    o :| o in objects && IsPdfKey(o.key) && keys[i] == PrimaryKey("SOURCE#" + ids(o.key), "SOURCE");
    RowShowsPdf(files[i], rows[keys[i]], o, ids, stamp, read);
  }

  lemma EveryPdfHasFile(rows: Rows, objects: seq<S3Object>, ids: string -> string, stamp: string -> string,
                        stored: seq<StoredFile>, keys: seq<PrimaryKey>, read: Readings, files: seq<IndexedFile>,
                        o: S3Object)
    requires OfBucket(rows, objects, ids, stamp) && Holds(stored, rows, keys) && Converted(files, stored, read)
    requires o in objects && IsPdfKey(o.key)
    ensures exists file :: file in files && ShowsPdf(file, o, ids, stamp, read)
  {
    hide IsPdfKey, BuildItem, Shows, NamedByPath, ShowsPdf;
    assert IsRowOf(rows, o, ids, stamp);
    var k := PrimaryKey("SOURCE#" + ids(o.key), "SOURCE");
    var i :| 0 <= i < |keys| && keys[i] == k;
    RowShowsPdf(files[i], rows[k], o, ids, stamp, read);
    assert files[i] in files;
  }

  /** No two files of the table show the same bucket key. */
  lemma NoPdfTwice(rows: Rows, objects: seq<S3Object>, ids: string -> string, stamp: string -> string,
                   stored: seq<StoredFile>, keys: seq<PrimaryKey>, read: Readings, files: seq<IndexedFile>)
    requires OfBucket(rows, objects, ids, stamp) && Holds(stored, rows, keys) && Converted(files, stored, read)
    ensures forall i, j | 0 <= i < j < |files| :: files[i].s3Key != files[j].s3Key
  {
    hide *;
    forall i, j | 0 <= i < j < |files| ensures files[i].s3Key != files[j].s3Key {
      var a := EveryFileIsPdf(rows, objects, ids, stamp, stored, keys, read, files, i);
      var b := EveryFileIsPdf(rows, objects, ids, stamp, stored, keys, read, files, j);
      KeysDiffer(stored, rows, keys, read, files, i, j);
    }
  }

  lemma KeysDiffer(stored: seq<StoredFile>, rows: Rows, keys: seq<PrimaryKey>, read: Readings, files: seq<IndexedFile>,
                   i: nat, j: nat)
    requires Holds(stored, rows, keys) && Converted(files, stored, read) && i < j < |files|
    ensures |keys| == |files| && keys[i] != keys[j]
  {
  }

  lemma {:induction false} OnceAtMost(files: seq<IndexedFile>, x: IndexedFile)
    requires forall i, j | 0 <= i < j < |files| :: files[i].s3Key != files[j].s3Key
    ensures multiset(files)[x] <= 1
  {
    if files != [] {
      var n := |files| - 1;
      assert files == files[..n] + [files[n]];
      OnceAtMost(files[..n], x);
      if x == files[n] {
        assert x !in files[..n];
      }
    }
  }

  lemma DistinctListed(files: seq<IndexedFile>, listed: seq<IndexedFile>)
    requires multiset(listed) == multiset(files)
    requires forall i, j | 0 <= i < j < |files| :: files[i].s3Key != files[j].s3Key
    ensures forall i, j | 0 <= i < j < |listed| :: listed[i].s3Key != listed[j].s3Key
  {
    forall i, j | 0 <= i < j < |listed| ensures listed[i].s3Key != listed[j].s3Key {
      assert listed[i] in multiset(files) && listed[j] in multiset(files);
      if listed[i] == listed[j] {
        OnceAtMost(files, listed[i]);
        TwiceInSeq(listed, i, j);
      }
    }
  }

  /** After a sync of a listing, whatever was in the table before and however the table keeps its rows, the library
      lists every PDF of the bucket once, under the title and category of its path, and nothing else. */
  lemma SyncedLibraryIsListed(after: Rows, rows: Rows, objects: seq<S3Object>, ids: string -> string,
                              stamp: string -> string, collation: Less<string>, existing: seq<Existing>,
                              stored: seq<StoredFile>, keys: seq<PrimaryKey>, read: Readings, files: seq<IndexedFile>,
                              listed: seq<IndexedFile>)
    requires SyncedTo(after, rows, objects, ids, stamp, collation, existing)
    requires Holds(stored, after, keys) && Converted(files, stored, read) && multiset(listed) == multiset(files)
    ensures forall o | o in objects && IsPdfKey(o.key) ::
              exists file :: file in listed && ShowsPdf(file, o, ids, stamp, read)
    ensures forall file | file in listed ::
              exists o :: o in objects && IsPdfKey(o.key) && ShowsPdf(file, o, ids, stamp, read)
    ensures forall i, j | 0 <= i < j < |listed| :: listed[i].s3Key != listed[j].s3Key
  {
    SyncedRowsAreOfBucket(after, rows, objects, ids, stamp, collation, existing);
    NoPdfTwice(after, objects, ids, stamp, stored, keys, read, files);
    DistinctListed(files, listed);
    hide *;
    forall file ensures file in listed <==> file in files {
      assert file in listed <==> file in multiset(listed);
      assert file in files <==> file in multiset(files);
    }
    forall o | o in objects && IsPdfKey(o.key)
      ensures exists file :: file in listed && ShowsPdf(file, o, ids, stamp, read)
    {
      EveryPdfHasFile(after, objects, ids, stamp, stored, keys, read, files, o);
    }
    forall file | file in listed
      ensures exists o :: o in objects && IsPdfKey(o.key) && ShowsPdf(file, o, ids, stamp, read)
    {
      var i :| 0 <= i < |files| && files[i] == file;
      var o := EveryFileIsPdf(after, objects, ids, stamp, stored, keys, read, files, i);
    }
  }
}
