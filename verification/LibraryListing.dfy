/** Listing the indexed files: all pages of a scan, then sorted by category and name. */
module LibraryListing {
  import opened Text
  import opened Time
  import opened Uuids
  import opened StableSort
  import opened Database

  datatype IndexedFile = IndexedFile(sourceId: Uuid, s3Key: string, name: string, category: string, status: string,
                                     s3UploadedAt: DateTime, ragIndexedAt: Option<DateTime>)

  predicate FileLess(a: IndexedFile, b: IndexedFile) {
    LexLess(a.category, b.category) || (a.category == b.category && LexLess(a.name, b.name))
  }

  lemma FilesWeaklyOrdered()
    ensures WeakOrder(FileLess)
  {
    forall x ensures !FileLess(x, x) {
      LexIrreflexive(x.category);
      LexIrreflexive(x.name);
    }
    forall x, y, z | FileLess(x, y) && FileLess(y, z) ensures FileLess(x, z) {
      FileTransitive(x, y, z);
    }
    forall x, y, z | FileLess(x, z) ensures FileLess(x, y) || FileLess(y, z) {
      FileCotransitive(x, y, z);
    }
  }

  lemma FileTransitive(x: IndexedFile, y: IndexedFile, z: IndexedFile)
    requires FileLess(x, y) && FileLess(y, z)
    ensures FileLess(x, z)
  {
    if LexLess(x.category, y.category) &&
      LexLess(y.category, z.category) { LexTransitive(x.category, y.category, z.category); }
    if LexLess(x.name, y.name) && LexLess(y.name, z.name) { LexTransitive(x.name, y.name, z.name); }
  }

  lemma FileCotransitive(x: IndexedFile, y: IndexedFile, z: IndexedFile)
    requires FileLess(x, z)
    ensures FileLess(x, y) || FileLess(y, z)
  {
    LexTotal(x.category, y.category);
    LexTotal(x.name, y.name);
    if FileLess(y, x) { FileTransitive(y, x, z); }
  }

  /** A stored row as the scan answers it; None for an attribute it lacks. */
  datatype StoredFile = StoredFile(sourceId: Option<string>, s3Key: Option<string>, paperTitle: Option<string>,
                                   category: Option<string>,
                                   status: Option<string>, s3UploadedAt: Option<string>, ragIndexedAt: Option<string>)

  /** How Python reads identifiers and ISO 8601 texts, a time without offset as UTC; None where it raises an error. */
  datatype Readings = Readings(uuid: string -> Option<Uuid>, date: string -> Option<DateTime>)

  /** None where an attribute is missing or cannot be read. Only the indexing date may be absent. */
  function ToIndexedFile(row: StoredFile, read: Readings): Option<IndexedFile> {
    if row.sourceId.None? || row.s3Key.None? || row.paperTitle.None? || row.category.None? || row.status.None? ||
      row.s3UploadedAt.None? then None
    else
      var id, uploaded := read.uuid(row.sourceId.value), read.date(row.s3UploadedAt.value);
      var indexed := if row.ragIndexedAt.None? then None else read.date(row.ragIndexedAt.value);
      if id.None? || uploaded.None? || (row.ragIndexedAt.Some? && indexed.None?) then None
      else Some(IndexedFile(id.value, row.s3Key.value, row.paperTitle.value, row.category.value, row.status.value,
                            uploaded.value, indexed))
  }

  /** Which attribute of the row each field of the file shows. */
  predicate Shows(file: IndexedFile, row: StoredFile, read: Readings) {
    && row.sourceId.Some? && read.uuid(row.sourceId.value) == Some(file.sourceId)
    && row.s3Key == Some(file.s3Key)
    && row.paperTitle == Some(file.name)
    && row.category == Some(file.category)
    && row.status == Some(file.status)
    && row.s3UploadedAt.Some? && read.date(row.s3UploadedAt.value) == Some(file.s3UploadedAt)
    && (row.ragIndexedAt.None? <==> file.ragIndexedAt.None?)
    && (row.ragIndexedAt.Some? ==> read.date(row.ragIndexedAt.value) == file.ragIndexedAt)
  }

  /** No attribute but the indexing date is missing, and the identifier and the dates can be read. */
  predicate Readable(row: StoredFile, read: Readings) {
    && row.sourceId.Some? && read.uuid(row.sourceId.value).Some?
    && row.s3Key.Some? && row.paperTitle.Some? && row.category.Some? && row.status.Some?
    && row.s3UploadedAt.Some? && read.date(row.s3UploadedAt.value).Some?
    && (row.ragIndexedAt.Some? ==> read.date(row.ragIndexedAt.value).Some?)
  }

  /** A row is converted exactly when it is readable, and to the one file that shows it. */
  lemma ConversionShows(row: StoredFile, read: Readings)
    ensures ToIndexedFile(row, read).Some? <==> Readable(row, read)
    ensures forall file :: ToIndexedFile(row, read) == Some(file) <==> Shows(file, row, read)
  {
  }

  /** The files are the rows, one by one. */
  predicate Converted(files: seq<IndexedFile>, rows: seq<StoredFile>, read: Readings) {
    |files| == |rows| && forall i | 0 <= i < |rows| :: Shows(files[i], rows[i], read)
  }

  /** By category, and by name within a category. */
  predicate OnShelves(files: seq<IndexedFile>) {
    forall i, j | 0 <= i < j < |files| ::
      LexLess(files[i].category, files[j].category) || (files[i].category == files[j].category
      && (LexLess(files[i].name, files[j].name) || files[i].name == files[j].name))
  }

  /** The files with this category and name, in their given order. */
  function Alike(files: seq<IndexedFile>, category: string, name: string): seq<IndexedFile> {
    if files == [] then []
    else
      var n := |files| - 1;
      Alike(files[..n], category, name)
        + (if files[n].category == category && files[n].name == name then [files[n]] else [])
  }

  lemma {:induction false} AlikeAreTies(files: seq<IndexedFile>, x: IndexedFile)
    ensures Alike(files, x.category, x.name) == Ties(files, x, FileLess)
  {
    if files != [] {
      var y := files[|files| - 1];
      AlikeAreTies(files[..|files| - 1], x);
      LexTotal(x.category, y.category);
      LexTotal(x.name, y.name);
      LexIrreflexive(x.category);
      LexIrreflexive(x.name);
      assert Tie(y, x, FileLess) == if y.category == x.category && y.name == x.name then [y] else [];
    }
  }

  lemma AlikeKept(files: seq<IndexedFile>, category: string, name: string)
    ensures Alike(SortBy(files, FileLess), category, name) == Alike(files, category, name)
  {
    var x := IndexedFile(0, "", name, category, "", DateTime(Fields(1, 1, 1, 0, 0, 0, 0), 0), None);
    FilesWeaklyOrdered();
    AlikeAreTies(files, x);
    AlikeAreTies(SortBy(files, FileLess), x);
    SortIsStable(files, x, FileLess);
  }

  lemma SortedOnShelves(files: seq<IndexedFile>)
    ensures OnShelves(SortBy(files, FileLess))
  {
    FilesWeaklyOrdered();
    SortOrdered(files, FileLess);
    var sorted := SortBy(files, FileLess);
    forall i, j | 0 <= i < j < |sorted| ensures !FileLess(sorted[j], sorted[i]) {
    }
    forall i, j | 0 <= i < j < |sorted|
      ensures LexLess(sorted[i].category, sorted[j].category) || (sorted[i].category == sorted[j].category
              && (LexLess(sorted[i].name, sorted[j].name) || sorted[i].name == sorted[j].name))
    {
      LexTotal(sorted[i].category, sorted[j].category);
      LexTotal(sorted[i].name, sorted[j].name);
    }
  }

  datatype ListingResult = Files(files: seq<IndexedFile>) | AccessError

  class LibraryFiles {
    const stored: seq<StoredFile> // in whatever order the table keeps them
    const read: Readings
    ghost var faults: nat // requests that failed

    constructor (stored: seq<StoredFile>, read: Readings)
      ensures this.stored == stored && this.read == read
    {
      this.stored := stored;
      this.read := read;
    }

    /** One page: at least one row while any is left. The cursor is the position behind the last row answered,
        and may be given even when nothing follows it. */
    method ScanPage(start: nat) returns (fault: bool, page: seq<StoredFile>, next: Option<nat>)
      requires start <= |stored|
      modifies this
      ensures next.Some? ==> start < next.value <= |stored| && page == stored[start..next.value]
      ensures next.None? ==> page == stored[start..]
      ensures faults == old(faults) + (if fault then 1 else 0)
    {
      fault := *;
      if fault {
        faults := faults + 1;
      }
      page, next := stored[start..], None;
      var end: nat := *;
      if start < end <= |stored| {
        page, next := stored[start..end], Some(end);
      }
    }

    /** Every stored row once, whatever the pages. */
    method ScanAll() returns (fault: bool, rows: seq<StoredFile>)
      modifies this
      ensures !fault ==> rows == stored
      ensures faults == old(faults) + (if fault then 1 else 0)
    {
      rows := [];
      var start := 0;
      while true
        invariant start <= |stored| && rows == stored[..start] && faults == old(faults)
        decreases |stored| - start
      {
        var failed, page, next := ScanPage(start);
        if failed {
          return true, [];
        }
        rows := rows + page;
        if next.None? {
          return false, rows;
        }
        start := next.value;
      }
    }

    /** All rows converted; an error when a request fails or any row cannot be converted. */
    method ReadFiles() returns (r: ListingResult)
      modifies this
      ensures r.Files? ==> Converted(r.files, stored, read) && faults == old(faults)
      ensures r.AccessError? ==>
                faults > old(faults) || exists i :: 0 <= i < |stored| && !Readable(stored[i], read)
    {
      var fault, rows := ScanAll();
      if fault {
        return AccessError;
      }
      var files: seq<IndexedFile> := [];
      for i := 0 to |rows|
        invariant Converted(files, rows[..i], read) && faults == old(faults)
      {
        ConversionShows(rows[i], read);
        var file := ToIndexedFile(rows[i], read);
        if file.None? {
          return AccessError;
        }
        files := files + [file.value];
      }
      assert rows[..|rows|] == rows;
      r := Files(files);
    }

    /** The listing arranges the files of all stored rows by category and name, those alike in both as they were
        stored; no rows give an empty list. */
    method ListIndexedFiles() returns (r: ListingResult, ghost files: seq<IndexedFile>)
      modifies this
      ensures r.Files? ==> Converted(files, stored, read) && faults == old(faults)
      ensures r.Files? ==> r.files == SortBy(files, FileLess)
      ensures r.Files? ==> multiset(r.files) == multiset(files) && OnShelves(r.files)
      ensures r.Files? ==> forall c, n :: Alike(r.files, c, n) == Alike(files, c, n)
      ensures r.AccessError? ==>
                faults > old(faults) || exists i :: 0 <= i < |stored| && !Readable(stored[i], read)
    {
      var found := ReadFiles();
      if found.AccessError? {
        return AccessError, [];
      }
      files := found.files;
      SortedOnShelves(files);
      forall c, n ensures Alike(SortBy(files, FileLess), c, n) == Alike(files, c, n) {
        AlikeKept(files, c, n);
      }
      r := Files(SortBy(found.files, FileLess));
    }
  }

  /** When no two files share category and name, every storage order gives the same listing. */
  lemma StorageOrderIrrelevant(stored: seq<IndexedFile>, rearranged: seq<IndexedFile>)
    requires multiset(stored) == multiset(rearranged)
    requires forall i, j | 0 <= i < j < |stored| ::
               (stored[i].category, stored[i].name) != (stored[j].category, stored[j].name)
    ensures SortBy(stored, FileLess) == SortBy(rearranged, FileLess)
  {
    FilesWeaklyOrdered();
    SortOrdered(stored, FileLess);
    SortOrdered(rearranged, FileLess);
    forall i, j | 0 <= i < j < |stored| ensures FileLess(stored[i], stored[j]) || FileLess(stored[j], stored[i]) {
      LexTotal(stored[i].category, stored[j].category);
      LexTotal(stored[i].name, stored[j].name);
    }
    DistinctnessSorted(stored);
    OrderedIsUnique(SortBy(stored, FileLess), SortBy(rearranged, FileLess), FileLess);
  }

  lemma DistinctnessSorted(s: seq<IndexedFile>)
    requires DistinctKeys(s, FileLess)
    ensures DistinctKeys(SortBy(s, FileLess), FileLess)
  {
    var r := SortBy(s, FileLess);
    FilesWeaklyOrdered();
    forall x | x in s ensures multiset(s)[x] == 1 {
      OccursOnce(s, x);
    }
    forall i, j | 0 <= i < j < |r| ensures FileLess(r[i], r[j]) || FileLess(r[j], r[i]) {
      assert r[i] in multiset(s) && r[j] in multiset(s);
      var a :| 0 <= a < |s| && s[a] == r[i];
      var b :| 0 <= b < |s| && s[b] == r[j];
      if a == b {
        TwiceInSeq(r, i, j);
      }
    }
  }

  lemma {:induction false} OccursOnce(s: seq<IndexedFile>, x: IndexedFile)
    requires DistinctKeys(s, FileLess) && WeakOrder(FileLess) && x in s
    ensures multiset(s)[x] == 1
  {
    var n := |s| - 1;
    assert s == s[..n] + [s[n]];
    if x == s[n] {
      assert x !in s[..n];
    } else {
      OccursOnce(s[..n], x);
    }
  }
}
