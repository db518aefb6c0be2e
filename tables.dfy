/**
 * The catalog's relational side (the modules under dor/models) as a snapshot of its
 * tables: one sequence of rows per table, in table order. The schema's
 * uniqueness constraints are predicates on the snapshot, the ORM's derived
 * properties are functions of it, and SQL's "exactly one row" reads become
 * results that name the error.
 */
module Tables {
  import opened Wrappers
  import Domain
  import Seqs
  import Text

  /** The `type` of an object row that is a fileset of another object. */
  const FilesetType: string := "types:fileset"

  /** A row of `catalog_intellectual_object`. */
  datatype ObjectRow = ObjectRow(
    id: nat,
    binIdentifier: Domain.Uuid,
    identifier: Domain.Uuid,
    alternateIdentifiers: string,
    objectType: string,
    revisionNumber: int,
    createdAt: Domain.Timestamp,
    updatedAt: Domain.Timestamp,
    title: string,
    description: string)

  /** A row of `catalog_current_revision`: the pointer to an identifier's current revision. */
  datatype CurrentRevisionRow = CurrentRevisionRow(
    id: nat,
    revisionNumber: int,
    intellectualObjectIdentifier: Domain.Uuid,
    intellectualObjectId: Option<nat>)

  /** A row of `catalog_object_file`. */
  datatype FileRow = FileRow(
    id: nat,
    identifier: Domain.Uuid,
    path: string,
    fileFormat: string,
    fileFunction: string,
    size: int,
    digest: seq<Domain.Byte>,
    createdAt: Domain.Timestamp,
    updatedAt: Domain.Timestamp,
    lastFixityCheck: Domain.Timestamp,
    intellectualObjectId: Option<nat>,
    filesetId: Option<nat>)

  /** A row of `catalog_file_set`. */
  datatype FileSetRow = FileSetRow(
    id: nat,
    identifier: Domain.Uuid,
    alternateIdentifiers: string,
    setType: string,
    revisionNumber: int,
    createdAt: Domain.Timestamp,
    title: string,
    intellectualObjectId: Option<nat>)

  /** A row of `catalog_collection`; the alternate identifiers are stored as one string. */
  datatype CollectionRow = CollectionRow(
    id: nat,
    identifier: Domain.Uuid,
    alternateIdentifiers: string,
    collectionType: string,
    createdAt: Domain.Timestamp,
    updatedAt: Domain.Timestamp,
    title: string,
    description: string)

  /** A row of `catalog_collection_object_membership`. */
  datatype Membership = Membership(intellectualObjectId: nat, collectionId: nat)

  /** A row of `catalog_premis_event`, with the linking agent in three columns. */
  datatype EventRow = EventRow(
    identifier: Domain.Uuid,
    eventType: string,
    dateTime: Domain.Timestamp,
    detail: string,
    outcome: string,
    outcomeDetailNote: string,
    linkingAgentValue: string,
    linkingAgentType: string,
    linkingAgentRole: string,
    intellectualObjectId: Option<nat>)

  datatype Database = Database(
    objects: seq<ObjectRow>,
    currentRevisions: seq<CurrentRevisionRow>,
    files: seq<FileRow>,
    fileSets: seq<FileSetRow>,
    collections: seq<CollectionRow>,
    memberships: seq<Membership>,
    events: seq<EventRow>)

  /** What the database or SQLAlchemy raises where the code expects a single row or a clean insert. */
  datatype DbError = NoResultFound | MultipleResultsFound | IntegrityError

  /** `Result.one()` / `scalar_one()`: the only row, or the error naming why there is not exactly one. */
  function One<T>(rows: seq<T>): (r: Result<T, DbError>)
    ensures r.Success? <==> |rows| == 1
    ensures r.Success? ==> r.value in rows
    ensures r.Failure? && r.error == NoResultFound <==> rows == []
    ensures r.Failure? ==> r.error != IntegrityError
  {
    if |rows| == 0 then Failure(NoResultFound)
    else if |rows| == 1 then Success(rows[0])
    else Failure(MultipleResultsFound)
  }

  // ---------------------------------------------------------------------
  // Schema constraints

  /** The primary key of `catalog_intellectual_object`. */
  ghost predicate UniqueObjectIds(objects: seq<ObjectRow>)
  {
    forall i, j :: 0 <= i < |objects| && 0 <= j < |objects| && objects[i].id == objects[j].id ==> i == j
  }

  /** `uq_intellectual_object_revision`: one row per (identifier, revision_number). */
  ghost predicate UniqueObjectRevisions(objects: seq<ObjectRow>)
  {
    forall i, j ::
      (0 <= i < |objects| && 0 <= j < |objects|
       && objects[i].identifier == objects[j].identifier
       && objects[i].revisionNumber == objects[j].revisionNumber) ==> i == j
  }

  /** `intellectual_object_identifier` is unique: one current-revision row per identifier. */
  ghost predicate UniqueCurrentIdentifiers(crs: seq<CurrentRevisionRow>)
  {
    forall i, j ::
      (0 <= i < |crs| && 0 <= j < |crs|
       && crs[i].intellectualObjectIdentifier == crs[j].intellectualObjectIdentifier) ==> i == j
  }

  /**
   * A current-revision row names the identifier of the object row it points
   * at, as the catalog loader writes it (dor/cli/catalog.py).
   */
  ghost predicate PointersAgree(db: Database)
  {
    forall c, o :: c in db.currentRevisions && o in db.objects && c.intellectualObjectId == Some(o.id) ==>
      c.intellectualObjectIdentifier == o.identifier
  }

  /** `uq_fileset_revision`: one file-set row per (identifier, revision_number). */
  ghost predicate UniqueFileSetRevisions(fileSets: seq<FileSetRow>)
  {
    forall i, j ::
      (0 <= i < |fileSets| && 0 <= j < |fileSets|
       && fileSets[i].identifier == fileSets[j].identifier
       && fileSets[i].revisionNumber == fileSets[j].revisionNumber) ==> i == j
  }

  /** `catalog_collection.identifier` is unique. */
  ghost predicate UniqueCollectionIdentifiers(collections: seq<CollectionRow>)
  {
    forall i, j ::
      (0 <= i < |collections| && 0 <= j < |collections|
       && collections[i].identifier == collections[j].identifier) ==> i == j
  }

  /** `catalog_premis_event.identifier` is unique. */
  ghost predicate UniqueEventIdentifiers(events: seq<EventRow>)
  {
    forall i, j ::
      (0 <= i < |events| && 0 <= j < |events|
       && events[i].identifier == events[j].identifier) ==> i == j
  }

  /** `catalog_object_file.identifier` is unique. */
  ghost predicate UniqueFileIdentifiers(files: seq<FileRow>)
  {
    forall i, j :: 0 <= i < |files| && 0 <= j < |files| && files[i].identifier == files[j].identifier ==> i == j
  }

  ghost predicate WellFormed(db: Database)
  {
    && UniqueObjectIds(db.objects)
    && UniqueObjectRevisions(db.objects)
    && UniqueCurrentIdentifiers(db.currentRevisions)
    && PointersAgree(db)
    && UniqueFileSetRevisions(db.fileSets)
    && UniqueCollectionIdentifiers(db.collections)
    && UniqueEventIdentifiers(db.events)
    && UniqueFileIdentifiers(db.files)
  }

  // ---------------------------------------------------------------------
  // The join with `catalog_current_revision`

  /** The number of current-revision rows pointing at the object row with primary key `id`. */
  function Pointers(crs: seq<CurrentRevisionRow>, id: nat): (r: nat)
    ensures r <= |crs|
    ensures r > 0 <==> exists c :: c in crs && c.intellectualObjectId == Some(id)
  {
    if crs == [] then 0
    else
      var rest := Pointers(crs[1..], id);
      assert forall c :: c in crs[1..] ==> c in crs;
      assert forall c :: c in crs ==> c == crs[0] || c in crs[1..];
      (if crs[0].intellectualObjectId == Some(id) then 1 else 0) + rest
  }

  /**
   * An inner join of object rows with `catalog_current_revision`: each row
   * appears once for every current-revision row that points at it.
   */
  function JoinCurrent(rows: seq<ObjectRow>, crs: seq<CurrentRevisionRow>): (r: seq<ObjectRow>)
    ensures forall x :: x in r <==> x in rows && Pointers(crs, x.id) > 0
  {
    if rows == [] then []
    else
      var here := seq(Pointers(crs, rows[0].id), _ => rows[0]);
      assert forall x :: x in here ==> x == rows[0];
      assert Pointers(crs, rows[0].id) > 0 ==> here[0] == rows[0];
      assert forall x :: x in rows ==> x == rows[0] || x in rows[1..];
      here + JoinCurrent(rows[1..], crs)
  }

  lemma {:induction false} JoinCurrentConcat(a: seq<ObjectRow>, b: seq<ObjectRow>, crs: seq<CurrentRevisionRow>)
    ensures JoinCurrent(a + b, crs) == JoinCurrent(a, crs) + JoinCurrent(b, crs)
  {
    if a == [] {
      assert a + b == b;
    } else {
      assert (a + b)[1..] == a[1..] + b;
      JoinCurrentConcat(a[1..], b, crs);
    }
  }

  /** `.where(IntellectualObject.identifier == identifier)`. */
  function WithIdentifier(rows: seq<ObjectRow>, identifier: Domain.Uuid): (r: seq<ObjectRow>)
    ensures forall x :: x in r <==> x in rows && x.identifier == identifier
  {
    if rows == [] then []
    else
      assert forall x :: x in rows ==> x == rows[0] || x in rows[1..];
      (if rows[0].identifier == identifier then [rows[0]] else []) + WithIdentifier(rows[1..], identifier)
  }

  /** The current-revision rows of an identifier: the join, then the identifier filter. */
  function CurrentWithIdentifier(db: Database, identifier: Domain.Uuid): (r: seq<ObjectRow>)
    ensures forall x :: x in r <==>
              x in db.objects && x.identifier == identifier && Pointers(db.currentRevisions, x.id) > 0
  {
    JoinCurrent(WithIdentifier(db.objects, identifier), db.currentRevisions)
  }

  /** Under the constraints, no object row has two current-revision rows pointing at it. */
  lemma {:induction false} AtMostOnePointer(db: Database, o: ObjectRow, s: nat)
    requires WellFormed(db) && o in db.objects && s <= |db.currentRevisions|
    ensures Pointers(db.currentRevisions[s..], o.id) <= 1
    decreases |db.currentRevisions| - s
  {
    var crs := db.currentRevisions;
    if s < |crs| {
      assert crs[s..][1..] == crs[s + 1..];
      if crs[s].intellectualObjectId == Some(o.id) {
        assert crs[s] in crs;
        forall c | c in crs[s + 1..] ensures c.intellectualObjectId != Some(o.id) {
          var u :| 0 <= u < |crs[s + 1..]| && crs[s + 1..][u] == c;
          assert crs[s + 1 + u] == c;
        }
      } else {
        AtMostOnePointer(db, o, s + 1);
      }
    }
  }

  /** Two current object rows with the same identifier are the same row. */
  lemma SameIdentifierSameCurrentRow(db: Database, x: ObjectRow, y: ObjectRow)
    requires WellFormed(db) && x in db.objects && y in db.objects
    ensures (Pointers(db.currentRevisions, x.id) > 0 && Pointers(db.currentRevisions, y.id) > 0
             && x.identifier == y.identifier) ==> x.id == y.id
  {
    var crs := db.currentRevisions;
    if Pointers(crs, x.id) > 0 && Pointers(crs, y.id) > 0 && x.identifier == y.identifier {
      var c1 :| c1 in crs && c1.intellectualObjectId == Some(x.id);
      var c2 :| c2 in crs && c2.intellectualObjectId == Some(y.id);
      var i :| 0 <= i < |crs| && crs[i] == c1;
      var j :| 0 <= j < |crs| && crs[j] == c2;
      assert crs[i].intellectualObjectIdentifier == crs[j].intellectualObjectIdentifier;
    }
  }

  lemma {:induction false} JoinCurrentEmpty(rows: seq<ObjectRow>, crs: seq<CurrentRevisionRow>)
    requires forall x :: x in rows ==> Pointers(crs, x.id) == 0
    ensures JoinCurrent(rows, crs) == []
  {
    if rows != [] {
      assert rows[0] in rows;
      assert forall x :: x in rows[1..] ==> x in rows;
      JoinCurrentEmpty(rows[1..], crs);
    }
  }

  lemma JoinCurrentSingle(o: ObjectRow, crs: seq<CurrentRevisionRow>)
    ensures |JoinCurrent([o], crs)| == Pointers(crs, o.id)
  {
    assert JoinCurrent([o], crs) == seq(Pointers(crs, o.id), _ => o) + JoinCurrent([], crs);
  }

  /** Once a current row with the identifier is found, no later row with it is current. */
  lemma NoCurrentAfter(db: Database, identifier: Domain.Uuid, s: nat)
    requires WellFormed(db) && s < |db.objects|
    requires db.objects[s].identifier == identifier && Pointers(db.currentRevisions, db.objects[s].id) > 0
    ensures JoinCurrent(WithIdentifier(db.objects[s + 1..], identifier), db.currentRevisions) == []
  {
    var objects, crs := db.objects, db.currentRevisions;
    var later := WithIdentifier(objects[s + 1..], identifier);
    forall x | x in later ensures Pointers(crs, x.id) == 0 {
      var u :| 0 <= u < |objects[s + 1..]| && objects[s + 1..][u] == x;
      assert objects[s + 1 + u] == x;
      SameIdentifierSameCurrentRow(db, objects[s], x);
    }
    JoinCurrentEmpty(later, crs);
  }

  lemma {:induction false} AtMostOneCurrentFrom(db: Database, identifier: Domain.Uuid, s: nat)
    requires WellFormed(db) && s <= |db.objects|
    ensures |JoinCurrent(WithIdentifier(db.objects[s..], identifier), db.currentRevisions)| <= 1
    decreases |db.objects| - s
  {
    var objects, crs := db.objects, db.currentRevisions;
    if s < |objects| {
      var o := objects[s];
      var tail := WithIdentifier(objects[s + 1..], identifier);
      assert objects[s..][1..] == objects[s + 1..];
      var head := if o.identifier == identifier then [o] else [];
      assert WithIdentifier(objects[s..], identifier) == head + tail;
      JoinCurrentConcat(head, tail, crs);
      JoinCurrentSingle(o, crs);
      if o.identifier == identifier && Pointers(crs, o.id) > 0 {
        AtMostOnePointer(db, o, 0);
        assert crs[0..] == crs;
        NoCurrentAfter(db, identifier, s);
      } else {
        AtMostOneCurrentFrom(db, identifier, s + 1);
      }
    }
  }

  /** Under the constraints an identifier never has more than one current row. */
  lemma AtMostOneCurrent(db: Database, identifier: Domain.Uuid)
    ensures WellFormed(db) ==> |CurrentWithIdentifier(db, identifier)| <= 1
  {
    if WellFormed(db) {
      AtMostOneCurrentFrom(db, identifier, 0);
      assert db.objects[0..] == db.objects;
    }
  }

  // ---------------------------------------------------------------------
  // `total_data_size` on the ORM models

  predicate IsSourceRow(f: FileRow)
  {
    f.fileFunction == Domain.SourceFunction
  }

  /** The sizes of the source files, in table order. */
  function SourceSizes(files: seq<FileRow>): (r: seq<int>)
    ensures |r| <= |files|
    ensures (forall f :: f in files ==> f.size >= 0) ==> forall i :: 0 <= i < |r| ==> r[i] >= 0
  {
    if files == [] then []
    else
      assert forall f :: f in files[1..] ==> f in files;
      (if IsSourceRow(files[0]) then [files[0].size] else []) + SourceSizes(files[1..])
  }

  lemma {:induction false} SourceSizesConcat(a: seq<FileRow>, b: seq<FileRow>)
    ensures SourceSizes(a + b) == SourceSizes(a) + SourceSizes(b)
  {
    if a == [] {
      assert a + b == b;
    } else {
      var head := if IsSourceRow(a[0]) then [a[0].size] else [];
      assert (a + b)[0] == a[0];
      assert (a + b)[1..] == a[1..] + b;
      assert SourceSizes(a + b) == head + SourceSizes(a[1..] + b);
      SourceSizesConcat(a[1..], b);
      assert SourceSizes(a) == head + SourceSizes(a[1..]);
      Seqs.ConcatAssociative(head, SourceSizes(a[1..]), SourceSizes(b));
    }
  }

  lemma {:induction false} NoSourceRowsNoSizes(files: seq<FileRow>)
    requires forall f :: f in files ==> !IsSourceRow(f)
    ensures SourceSizes(files) == []
  {
    if files != [] {
      assert files[0] in files;
      assert forall f :: f in files[1..] ==> f in files;
      NoSourceRowsNoSizes(files[1..]);
    }
  }

  /** `object_files` of the object row with primary key `id`. */
  function FilesOfObject(files: seq<FileRow>, id: nat): (r: seq<FileRow>)
    ensures forall f :: f in r <==> f in files && f.intellectualObjectId == Some(id)
  {
    if files == [] then []
    else
      assert forall f :: f in files ==> f == files[0] || f in files[1..];
      (if files[0].intellectualObjectId == Some(id) then [files[0]] else []) + FilesOfObject(files[1..], id)
  }

  lemma {:induction false} FilesOfObjectAppend(files: seq<FileRow>, f: FileRow, id: nat)
    ensures FilesOfObject(files + [f], id) ==
              FilesOfObject(files, id) + (if f.intellectualObjectId == Some(id) then [f] else [])
  {
    var tail := if f.intellectualObjectId == Some(id) then [f] else [];
    if files == [] {
      assert files + [f] == [f];
      assert FilesOfObject([f], id) == tail + FilesOfObject([], id) by {
        assert [f][0] == f;
        assert [f][1..] == [];
      }
    } else {
      var head := if files[0].intellectualObjectId == Some(id) then [files[0]] else [];
      var rest := files[1..];
      assert FilesOfObject(files + [f], id) == head + FilesOfObject(rest + [f], id) by {
        assert (files + [f])[0] == files[0];
        assert (files + [f])[1..] == rest + [f];
      }
      FilesOfObjectAppend(rest, f, id);
      assert FilesOfObject(files, id) == head + FilesOfObject(rest, id);
      Seqs.ConcatAssociative(head, FilesOfObject(rest, id), tail);
    }
  }

  /** `object_files` of the file-set row with primary key `id`. */
  function FilesOfFileSet(files: seq<FileRow>, id: nat): (r: seq<FileRow>)
    ensures forall f :: f in r <==> f in files && f.filesetId == Some(id)
  {
    if files == [] then []
    else
      assert forall f :: f in files ==> f == files[0] || f in files[1..];
      (if files[0].filesetId == Some(id) then [files[0]] else []) + FilesOfFileSet(files[1..], id)
  }

  lemma {:induction false} FilesOfFileSetAppend(files: seq<FileRow>, f: FileRow, id: nat)
    ensures FilesOfFileSet(files + [f], id) ==
              FilesOfFileSet(files, id) + (if f.filesetId == Some(id) then [f] else [])
  {
    var tail := if f.filesetId == Some(id) then [f] else [];
    if files == [] {
      assert files + [f] == [f];
      assert FilesOfFileSet([f], id) == tail + FilesOfFileSet([], id) by {
        assert [f][0] == f;
        assert [f][1..] == [];
      }
    } else {
      var head := if files[0].filesetId == Some(id) then [files[0]] else [];
      var rest := files[1..];
      assert FilesOfFileSet(files + [f], id) == head + FilesOfFileSet(rest + [f], id) by {
        assert (files + [f])[0] == files[0];
        assert (files + [f])[1..] == rest + [f];
      }
      FilesOfFileSetAppend(rest, f, id);
      assert FilesOfFileSet(files, id) == head + FilesOfFileSet(rest, id);
      Seqs.ConcatAssociative(head, FilesOfFileSet(rest, id), tail);
    }
  }

  /**
   * The `filesets` relationship: the object rows whose `bin_identifier` is
   * this row's identifier and whose type is `types:fileset`.
   */
  function FilesetsOf(objects: seq<ObjectRow>, row: ObjectRow): (r: seq<ObjectRow>)
    ensures forall x :: x in r <==> x in objects && x.binIdentifier == row.identifier && x.objectType == FilesetType
  {
    if objects == [] then []
    else
      var x := objects[0];
      assert forall y :: y in objects ==> y == x || y in objects[1..];
      (if x.binIdentifier == row.identifier && x.objectType == FilesetType then [x] else [])
        + FilesetsOf(objects[1..], row)
  }

  /**
   * `IntellectualObject.total_data_size`: a fileset row sums the sizes of its
   * own source files; any other row sums the data sizes of its filesets.
   */
  function RowTotalDataSize(db: Database, row: ObjectRow): (r: int)
    ensures (forall f :: f in db.files ==> f.size >= 0) ==> r >= 0
    ensures row.objectType == FilesetType
            && (forall f :: f in db.files && f.intellectualObjectId == Some(row.id) ==> !IsSourceRow(f))
            ==> r == 0
    decreases if row.objectType == FilesetType then 0 else 1, 0
  {
    if row.objectType == FilesetType then
      var files := FilesOfObject(db.files, row.id);
      var sizes := SourceSizes(files);
      assert (forall f :: f in db.files && f.intellectualObjectId == Some(row.id) ==> !IsSourceRow(f)) ==> sizes == [] by {
        if forall f :: f in db.files && f.intellectualObjectId == Some(row.id) ==> !IsSourceRow(f) {
          NoSourceRowsNoSizes(files);
        }
      }
      assert (forall f :: f in db.files ==> f.size >= 0) ==> Seqs.Sum(sizes) >= 0 by {
        if forall f :: f in db.files ==> f.size >= 0 {
          Seqs.SumNonNegative(sizes);
        }
      }
      Seqs.Sum(sizes)
    else
      var sizes := RowSizes(db, FilesetsOf(db.objects, row));
      assert (forall f :: f in db.files ==> f.size >= 0) ==> Seqs.Sum(sizes) >= 0 by {
        if forall f :: f in db.files ==> f.size >= 0 {
          Seqs.SumNonNegative(sizes);
        }
      }
      Seqs.Sum(sizes)
  }

  /** The data sizes of fileset rows, in order. */
  function RowSizes(db: Database, rows: seq<ObjectRow>): (r: seq<int>)
    requires forall x :: x in rows ==> x.objectType == FilesetType
    ensures |r| == |rows| && forall i :: 0 <= i < |rows| ==> r[i] == RowTotalDataSize(db, rows[i])
    decreases 0, |rows| + 1
  {
    seq(|rows|, i requires 0 <= i < |rows| => assert rows[i] in rows; RowTotalDataSize(db, rows[i]))
  }

  /** Appending a file that is not a source file changes no object row's data size. */
  lemma NonSourceFileRowDoesNotCount(db: Database, f: FileRow, row: ObjectRow)
    requires !IsSourceRow(f)
    ensures RowTotalDataSize(db.(files := db.files + [f]), row) == RowTotalDataSize(db, row)
  {
    var db' := db.(files := db.files + [f]);
    forall x: ObjectRow | x.objectType == FilesetType
      ensures RowTotalDataSize(db', x) == RowTotalDataSize(db, x)
    {
      FilesOfObjectAppend(db.files, f, x.id);
      var extra := if f.intellectualObjectId == Some(x.id) then [f] else [];
      SourceSizesConcat(FilesOfObject(db.files, x.id), extra);
      assert SourceSizes(extra) == [] by {
        if extra != [] { assert extra[1..] == []; }
      }
      assert SourceSizes(FilesOfObject(db.files, x.id)) + [] == SourceSizes(FilesOfObject(db.files, x.id));
    }
    if row.objectType != FilesetType {
      var fs := FilesetsOf(db.objects, row);
      assert RowSizes(db', fs) == RowSizes(db, fs);
    }
  }

  /**
   * The data size is 0 for a row that is not a fileset when it has no
   * filesets or its filesets have no source files.
   */
  lemma NothingContributesNoSize(db: Database, row: ObjectRow)
    ensures row.objectType != FilesetType
            && (forall x, f :: x in FilesetsOf(db.objects, row) && f in db.files && f.intellectualObjectId == Some(x.id)
                  ==> !IsSourceRow(f))
            ==> RowTotalDataSize(db, row) == 0
  {
    if row.objectType != FilesetType {
      var fs := FilesetsOf(db.objects, row);
      if forall x, f :: x in fs && f in db.files && f.intellectualObjectId == Some(x.id) ==> !IsSourceRow(f) {
        ZeroSum(RowSizes(db, fs));
      }
    }
  }

  lemma {:induction false} ZeroSum(xs: seq<int>)
    requires forall i :: 0 <= i < |xs| ==> xs[i] == 0
    ensures Seqs.Sum(xs) == 0
  {
    if xs != [] {
      ZeroSum(xs[1..]);
    }
  }

  /** File rows and domain files that agree, position by position, on function and size. */
  predicate FilesCorrespond(rows: seq<FileRow>, files: seq<Domain.ObjectFile>)
  {
    |rows| == |files|
    && forall i :: 0 <= i < |rows| ==> rows[i].fileFunction == files[i].fileFunction && rows[i].size == files[i].size
  }

  lemma {:induction false} SourceSizesMatchDomain(rows: seq<FileRow>, files: seq<Domain.ObjectFile>)
    requires FilesCorrespond(rows, files)
    ensures Seqs.Sum(SourceSizes(rows)) == Domain.SourceDataSize(files)
  {
    if rows != [] {
      SourceSizesMatchDomain(rows[1..], files[1..]);
      Domain.SourceDataSizeCons(files[0], files[1..]);
      assert [files[0]] + files[1..] == files;
      Seqs.SumConcat(if IsSourceRow(rows[0]) then [rows[0].size] else [], SourceSizes(rows[1..]));
    }
  }

  /**
   * The ORM and the domain record agree: a fileset row whose files correspond
   * to a domain fileset's files has the same data size, and an object row
   * whose filesets correspond to a domain object's filesets has the same data size.
   */
  lemma RowSizeMatchesDomain(db: Database, row: ObjectRow, fs: Domain.Fileset, obj: Domain.IntellectualObject)
    ensures row.objectType == FilesetType && FilesCorrespond(FilesOfObject(db.files, row.id), fs.objectFiles)
            ==> RowTotalDataSize(db, row) == Domain.FilesetTotalDataSize(fs)
    ensures var rows := FilesetsOf(db.objects, row);
            row.objectType != FilesetType && |rows| == |obj.filesets|
            && (forall i :: 0 <= i < |rows| ==> FilesCorrespond(FilesOfObject(db.files, rows[i].id), obj.filesets[i].objectFiles))
            ==> RowTotalDataSize(db, row) == Domain.ObjectTotalDataSize(obj)
  {
    if row.objectType == FilesetType && FilesCorrespond(FilesOfObject(db.files, row.id), fs.objectFiles) {
      FilesetRowMatchesDomain(db, row, fs);
    }
    var rows := FilesetsOf(db.objects, row);
    if row.objectType != FilesetType && |rows| == |obj.filesets|
       && (forall i :: 0 <= i < |rows| ==> FilesCorrespond(FilesOfObject(db.files, rows[i].id), obj.filesets[i].objectFiles)) {
      ObjectRowMatchesDomain(db, row, obj);
    }
  }

  lemma ObjectRowMatchesDomain(db: Database, row: ObjectRow, obj: Domain.IntellectualObject)
    requires row.objectType != FilesetType
    requires var rows := FilesetsOf(db.objects, row);
             |rows| == |obj.filesets|
             && forall i :: 0 <= i < |rows| ==> FilesCorrespond(FilesOfObject(db.files, rows[i].id), obj.filesets[i].objectFiles)
    ensures RowTotalDataSize(db, row) == Domain.ObjectTotalDataSize(obj)
  {
    var rows := FilesetsOf(db.objects, row);
    RowSizesMatchDomain(db, rows, obj.filesets);
    assert RowTotalDataSize(db, row) == Seqs.Sum(RowSizes(db, rows));
  }

  lemma RowSizesMatchDomain(db: Database, rows: seq<ObjectRow>, filesets: seq<Domain.Fileset>)
    requires forall x :: x in rows ==> x.objectType == FilesetType
    requires |rows| == |filesets|
    requires forall i :: 0 <= i < |rows| ==> FilesCorrespond(FilesOfObject(db.files, rows[i].id), filesets[i].objectFiles)
    ensures RowSizes(db, rows) == Domain.FilesetSizes(filesets)
  {
    forall i | 0 <= i < |rows|
      ensures RowSizes(db, rows)[i] == Domain.FilesetSizes(filesets)[i]
    {
      assert rows[i] in rows;
      FilesetRowMatchesDomain(db, rows[i], filesets[i]);
    }
  }

  lemma FilesetRowMatchesDomain(db: Database, row: ObjectRow, fs: Domain.Fileset)
    requires row.objectType == FilesetType && FilesCorrespond(FilesOfObject(db.files, row.id), fs.objectFiles)
    ensures RowTotalDataSize(db, row) == Domain.FilesetTotalDataSize(fs)
  {
    SourceSizesMatchDomain(FilesOfObject(db.files, row.id), fs.objectFiles);
  }

  /**
   * `FileSet.total_data_size`: the summed size of the source files among the
   * files that belong to the file set through `file_set_id`.
   */
  function FileSetTotalDataSize(files: seq<FileRow>, fileSet: FileSetRow): (r: int)
    ensures (forall g :: g in files && g.filesetId == Some(fileSet.id) ==> !IsSourceRow(g)) ==> r == 0
    ensures (forall g :: g in files ==> g.size >= 0) ==> r >= 0
  {
    var own := FilesOfFileSet(files, fileSet.id);
    var sizes := SourceSizes(own);
    assert (forall g :: g in files && g.filesetId == Some(fileSet.id) ==> !IsSourceRow(g)) ==> sizes == [] by {
      if forall g :: g in files && g.filesetId == Some(fileSet.id) ==> !IsSourceRow(g) {
        NoSourceRowsNoSizes(own);
      }
    }
    assert (forall g :: g in files ==> g.size >= 0) ==> Seqs.Sum(sizes) >= 0 by {
      if forall g :: g in files ==> g.size >= 0 {
        Seqs.SumNonNegative(sizes);
      }
    }
    Seqs.Sum(sizes)
  }

  /**
   * Appending a file adds its size to a file set's data size exactly when it
   * is a source file of that file set; any other file adds nothing.
   */
  lemma FileSetSizeCountsOnlySources(files: seq<FileRow>, f: FileRow, fileSet: FileSetRow)
    ensures FileSetTotalDataSize(files + [f], fileSet) ==
              FileSetTotalDataSize(files, fileSet)
              + (if IsSourceRow(f) && f.filesetId == Some(fileSet.id) then f.size else 0)
  {
    var own := FilesOfFileSet(files, fileSet.id);
    FilesOfFileSetAppend(files, f, fileSet.id);
    var extra := if f.filesetId == Some(fileSet.id) then [f] else [];
    SourceSizesConcat(own, extra);
    Seqs.SumConcat(SourceSizes(own), SourceSizes(extra));
    if extra != [] { assert extra[1..] == []; }
  }

  /**
   * A file set row's data size is the domain `total_data_size` of a file set
   * whose files correspond to the row's files.
   */
  lemma FileSetSizeMatchesDomain(files: seq<FileRow>, fileSet: FileSetRow, fs: Domain.Fileset)
    requires FilesCorrespond(FilesOfFileSet(files, fileSet.id), fs.objectFiles)
    ensures FileSetTotalDataSize(files, fileSet) == Domain.FilesetTotalDataSize(fs)
  {
    SourceSizesMatchDomain(FilesOfFileSet(files, fileSet.id), fs.objectFiles);
  }

  // ---------------------------------------------------------------------
  // `collections_summary` on the ORM model

  /** The `collections` relationship through the membership table, in collection-table order. */
  function CollectionsOf(db: Database, row: ObjectRow): (r: seq<CollectionRow>)
    ensures forall c :: c in r <==> c in db.collections && Membership(row.id, c.id) in db.memberships
  {
    CollectionsAmong(db.collections, db.memberships, row.id)
  }

  function CollectionsAmong(collections: seq<CollectionRow>, memberships: seq<Membership>, id: nat): (r: seq<CollectionRow>)
    ensures forall c :: c in r <==> c in collections && Membership(id, c.id) in memberships
  {
    if collections == [] then []
    else
      var c := collections[0];
      assert forall d :: d in collections ==> d == c || d in collections[1..];
      (if Membership(id, c.id) in memberships then [c] else []) + CollectionsAmong(collections[1..], memberships, id)
  }

  /** The stored alternate-identifier strings, one per collection. */
  function StoredAlternateIdentifiers(collections: seq<CollectionRow>): (r: seq<string>)
    ensures |r| == |collections| && forall i :: 0 <= i < |r| ==> r[i] == collections[i].alternateIdentifiers
  {
    if collections == [] then [] else [collections[0].alternateIdentifiers] + StoredAlternateIdentifiers(collections[1..])
  }

  /**
   * `IntellectualObject.collections_summary` on the ORM model: the stored
   * strings joined with '/'. Split on '/', it gives back each collection's
   * stored string, when there is at least one collection and none contains
   * '/'; with no collections the summary is empty.
   */
  function RowCollectionsSummary(db: Database, row: ObjectRow): (r: string)
    ensures CollectionsOf(db, row) == [] ==> r == ""
    ensures var cs := CollectionsOf(db, row);
            |cs| >= 1 && (forall c :: c in cs ==> '/' !in c.alternateIdentifiers) ==>
              Text.Split(r, '/') == StoredAlternateIdentifiers(cs)
  {
    var cs := CollectionsOf(db, row);
    var ids := StoredAlternateIdentifiers(cs);
    assert |cs| >= 1 && (forall c :: c in cs ==> '/' !in c.alternateIdentifiers) ==>
             Text.Split(Text.Join(ids, '/'), '/') == ids by {
      if |cs| >= 1 && (forall c :: c in cs ==> '/' !in c.alternateIdentifiers) {
        forall i | 0 <= i < |ids| ensures '/' !in ids[i] {
          assert cs[i] in cs;
        }
        Text.SplitJoin(ids, '/');
      }
    }
    Text.Join(ids, '/')
  }

  /** Collection rows written from domain collections by `",".join(alternate_identifiers)`. */
  predicate StoredFrom(rows: seq<CollectionRow>, cols: seq<Domain.Collection>)
  {
    |rows| == |cols| && forall i :: 0 <= i < |rows| ==> rows[i].alternateIdentifiers == Text.Join(cols[i].alternateIdentifiers, ',')
  }

  /**
   * The two `collections_summary` properties agree when every collection has
   * exactly one alternate identifier.
   */
  lemma {:induction false} SummariesAgreeForSingleIdentifiers(rows: seq<CollectionRow>, cols: seq<Domain.Collection>)
    requires StoredFrom(rows, cols)
    requires forall i :: 0 <= i < |cols| ==> |cols[i].alternateIdentifiers| == 1
    ensures Text.Join(StoredAlternateIdentifiers(rows), '/') == Text.Join(Domain.CollectionAlternateIdentifiers(cols), '/')
  {
    assert StoredAlternateIdentifiers(rows) == Domain.CollectionAlternateIdentifiers(cols) by {
      SingleIdentifiersFlatten(rows, cols);
    }
  }

  lemma {:induction false} SingleIdentifiersFlatten(rows: seq<CollectionRow>, cols: seq<Domain.Collection>)
    requires StoredFrom(rows, cols)
    requires forall i :: 0 <= i < |cols| ==> |cols[i].alternateIdentifiers| == 1
    ensures StoredAlternateIdentifiers(rows) == Domain.CollectionAlternateIdentifiers(cols)
  {
    if rows != [] {
      SingleIdentifiersFlatten(rows[1..], cols[1..]);
    }
  }

  /**
   * They differ as soon as a collection has two alternate identifiers: the
   * ORM summary keeps the stored ',' while the domain summary uses '/'.
   */
  lemma SummariesDifferForTwoIdentifiers(row: CollectionRow, col: Domain.Collection)
    requires col.alternateIdentifiers == ["a", "b"]
    requires StoredFrom([row], [col])
    ensures Text.Join(StoredAlternateIdentifiers([row]), '/') == "a,b"
    ensures Text.Join(Domain.CollectionAlternateIdentifiers([col]), '/') == "a/b"
  {
    assert Domain.CollectionAlternateIdentifiers([col]) == ["a", "b"] + Domain.CollectionAlternateIdentifiers([]);
    assert Text.Join(["a", "b"], ',') == "a" + [','] + "b";
    assert StoredAlternateIdentifiers([row]) == [row.alternateIdentifiers];
  }
}
