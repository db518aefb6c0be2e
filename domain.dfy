/**
 * The catalog's domain records and their derived properties (dor/domain.py):
 * the size rollups over filesets and objects, a fileset's source file, and an
 * object's collection summary.
 */
module Domain {
  import opened Wrappers
  import Seqs
  import Text

  /** A UUID, as its 128-bit value. */
  type Uuid = nat
  /** A point in time; the catalog only stores and compares timestamps. */
  type Timestamp = int
  newtype Byte = x: int | 0 <= x < 256

  /** The `file_function` tag of the files whose sizes make up a data size. */
  const SourceFunction: string := "function:source"

  datatype LinkingAgent = LinkingAgent(value: string, agentType: string, role: string)

  datatype PremisEvent = PremisEvent(
    identifier: Uuid,
    eventType: string,
    detail: string,
    datetime: Timestamp,
    outcome: string,
    outcomeDetailNote: string,
    linkingAgent: LinkingAgent)

  datatype Checksum = Checksum(algorithm: string, digest: seq<Byte>, createdAt: Timestamp)

  datatype ObjectFile = ObjectFile(
    identifier: Uuid,
    path: string,
    fileFormat: string,
    fileFunction: string,
    size: int,
    digest: seq<Byte>,
    createdAt: Timestamp,
    updatedAt: Timestamp,
    lastFixityCheck: Timestamp,
    checksums: seq<Checksum>,
    premisEvents: seq<PremisEvent>)

  datatype Fileset = Fileset(
    identifier: Uuid,
    alternateIdentifiers: seq<string>,
    title: string,
    revisionNumber: int,
    createdAt: Timestamp,
    orderLabel: string,
    objectFiles: seq<ObjectFile>,
    premisEvents: seq<PremisEvent>)

  datatype Collection = Collection(
    identifier: Uuid,
    alternateIdentifiers: seq<string>,
    title: string,
    description: string,
    collectionType: string,
    createdAt: Timestamp,
    updatedAt: Timestamp)

  datatype IntellectualObject = IntellectualObject(
    identifier: Uuid,
    binIdentifier: Uuid,
    alternateIdentifiers: seq<string>,
    objectType: string,
    revisionNumber: int,
    createdAt: Timestamp,
    updatedAt: Timestamp,
    title: string,
    description: string,
    filesets: seq<Fileset>,
    objectFiles: seq<ObjectFile>,
    premisEvents: seq<PremisEvent>,
    collections: seq<Collection>)

  predicate IsSource(f: ObjectFile)
  {
    f.fileFunction == SourceFunction
  }

  /** `[f for f in files if f.file_function == "function:source"]`. */
  function SourceFiles(files: seq<ObjectFile>): (r: seq<ObjectFile>)
    ensures forall f :: f in r <==> f in files && IsSource(f)
    ensures |r| <= |files|
  {
    if files == [] then []
    else (if IsSource(files[0]) then [files[0]] else []) + SourceFiles(files[1..])
  }

  lemma {:induction false} SourceFilesConcat(a: seq<ObjectFile>, b: seq<ObjectFile>)
    ensures SourceFiles(a + b) == SourceFiles(a) + SourceFiles(b)
  {
    if a == [] {
      assert a + b == b;
    } else {
      var head := if IsSource(a[0]) then [a[0]] else [];
      assert (a + b)[0] == a[0];
      assert (a + b)[1..] == a[1..] + b;
      assert SourceFiles(a + b) == head + SourceFiles(a[1..] + b);
      SourceFilesConcat(a[1..], b);
      Seqs.ConcatAssociative(head, SourceFiles(a[1..]), SourceFiles(b));
    }
  }

  function Sizes(files: seq<ObjectFile>): (r: seq<int>)
    ensures |r| == |files| && forall i :: 0 <= i < |r| ==> r[i] == files[i].size
  {
    if files == [] then [] else [files[0].size] + Sizes(files[1..])
  }

  lemma {:induction false} SizesConcat(a: seq<ObjectFile>, b: seq<ObjectFile>)
    ensures Sizes(a + b) == Sizes(a) + Sizes(b)
  {
  }

  /**
   * `Fileset.total_data_size`: the summed size of the fileset's source files.
   * A fileset without a source file has size 0, and sizes that are not
   * negative give a total that is not negative.
   */
  function FilesetTotalDataSize(fs: Fileset): (r: int)
    ensures SourceObjectFile(fs).None? ==> r == 0
    ensures (forall f :: f in fs.objectFiles ==> f.size >= 0) ==> r >= 0
  {
    SourceDataSize(fs.objectFiles)
  }

  /** The summed size of the source files of a list: files of any other function count for nothing. */
  function SourceDataSize(files: seq<ObjectFile>): (r: int)
    ensures (forall i :: 0 <= i < |files| ==> !IsSource(files[i])) ==> r == 0
    ensures (forall f :: f in files ==> f.size >= 0) ==> r >= 0
  {
    var sizes := Sizes(SourceFiles(files));
    assert (forall i :: 0 <= i < |files| ==> !IsSource(files[i])) ==> sizes == [] by {
      if SourceFiles(files) != [] {
        assert SourceFiles(files)[0] in files;
      }
    }
    assert (forall f :: f in files ==> f.size >= 0) ==> Seqs.Sum(sizes) >= 0 by {
      if forall f :: f in files ==> f.size >= 0 {
        forall i | 0 <= i < |sizes| ensures sizes[i] >= 0 {
          assert SourceFiles(files)[i] in files;
        }
        Seqs.SumNonNegative(sizes);
      }
    }
    Seqs.Sum(sizes)
  }

  /** The source data size of a list of files is additive over concatenation. */
  lemma SourceDataSizeConcat(a: seq<ObjectFile>, b: seq<ObjectFile>)
    ensures SourceDataSize(a + b) == SourceDataSize(a) + SourceDataSize(b)
  {
    SourceFilesConcat(a, b);
    SizesConcat(SourceFiles(a), SourceFiles(b));
    Seqs.SumConcat(Sizes(SourceFiles(a)), Sizes(SourceFiles(b)));
  }

  /** Each source file contributes its size; any other file contributes nothing. */
  lemma SourceDataSizeCons(f: ObjectFile, rest: seq<ObjectFile>)
    ensures SourceDataSize([f] + rest) == (if IsSource(f) then f.size else 0) + SourceDataSize(rest)
  {
    SourceDataSizeConcat([f], rest);
  }

  /** A file that is not a source file adds nothing wherever it stands in a list. */
  lemma SourceDataSizeInsert(before: seq<ObjectFile>, f: ObjectFile, after: seq<ObjectFile>)
    requires !IsSource(f)
    ensures SourceDataSize(before + [f] + after) == SourceDataSize(before + after)
  {
    var one := [f];
    assert SourceDataSize(one) == 0;
    assert SourceDataSize(before + one) == SourceDataSize(before) by {
      SourceDataSizeConcat(before, one);
    }
    assert SourceDataSize(before + one + after) == SourceDataSize(before) + SourceDataSize(after) by {
      SourceDataSizeConcat(before + one, after);
    }
    SourceDataSizeConcat(before, after);
  }

  /**
   * Inserting a file that is not a source file anywhere in a fileset (or
   * removing one) leaves its data size unchanged.
   */
  lemma NonSourceFileDoesNotCount(fs: Fileset, i: nat, f: ObjectFile)
    requires i <= |fs.objectFiles| && !IsSource(f)
    ensures FilesetTotalDataSize(fs.(objectFiles := fs.objectFiles[..i] + [f] + fs.objectFiles[i..]))
            == FilesetTotalDataSize(fs)
  {
    var files := fs.objectFiles;
    SourceDataSizeInsert(files[..i], f, files[i..]);
    assert files[..i] + files[i..] == files;
  }

  /**
   * `Fileset.source_object_file`: the first file tagged as source, in list
   * order, or `None` when no file is.
   */
  function SourceObjectFile(fs: Fileset): (r: Option<ObjectFile>)
    ensures r.None? <==> forall i :: 0 <= i < |fs.objectFiles| ==> !IsSource(fs.objectFiles[i])
    ensures r.Some? ==> exists i :: 0 <= i < |fs.objectFiles| && fs.objectFiles[i] == r.value
                          && IsSource(r.value)
                          && forall j :: 0 <= j < i ==> !IsSource(fs.objectFiles[j])
  {
    var sources := SourceFiles(fs.objectFiles);
    FirstSourceFile(fs.objectFiles);
    if |sources| > 0 then Some(sources[0]) else None
  }

  lemma {:induction false} FirstSourceFile(files: seq<ObjectFile>)
    ensures SourceFiles(files) != [] ==>
              exists i :: 0 <= i < |files| && files[i] == SourceFiles(files)[0]
                          && IsSource(files[i])
                          && forall j :: 0 <= j < i ==> !IsSource(files[j])
  {
    if files != [] && !IsSource(files[0]) {
      var tail := files[1..];
      assert SourceFiles(files) == SourceFiles(tail) by {
        assert SourceFiles(files) == [] + SourceFiles(tail);
      }
      FirstSourceFile(tail);
      if SourceFiles(tail) != [] {
        var i :| 0 <= i < |tail| && tail[i] == SourceFiles(tail)[0]
                 && IsSource(tail[i])
                 && forall j :: 0 <= j < i ==> !IsSource(tail[j]);
        assert files[i + 1] == tail[i];
        forall j | 0 <= j < i + 1 ensures !IsSource(files[j]) {
          if j > 0 { assert files[j] == tail[j - 1]; }
        }
        assert files[i + 1] == SourceFiles(files)[0] && IsSource(files[i + 1]);
      }
    } else if files != [] {
      assert SourceFiles(files) == [files[0]] + SourceFiles(files[1..]);
      assert files[0] == SourceFiles(files)[0] && IsSource(files[0]);
    }
  }

  function FilesetSizes(filesets: seq<Fileset>): (r: seq<int>)
    ensures |r| == |filesets| && forall i :: 0 <= i < |r| ==> r[i] == FilesetTotalDataSize(filesets[i])
  {
    if filesets == [] then [] else [FilesetTotalDataSize(filesets[0])] + FilesetSizes(filesets[1..])
  }

  /**
   * `IntellectualObject.total_data_size`: the sum of its filesets' data sizes.
   * The object's own files are not part of it: an object without filesets has
   * size 0 whatever files it has itself.
   */
  function ObjectTotalDataSize(obj: IntellectualObject): (r: int)
    ensures obj.filesets == [] ==> r == 0
    ensures (forall fs, f :: fs in obj.filesets && f in fs.objectFiles ==> f.size >= 0) ==> r >= 0
  {
    FilesetsDataSize(obj.filesets)
  }

  /** The summed data sizes of a list of filesets. */
  function FilesetsDataSize(filesets: seq<Fileset>): (r: int)
    ensures filesets == [] ==> r == 0
    ensures (forall fs, f :: fs in filesets && f in fs.objectFiles ==> f.size >= 0) ==> r >= 0
  {
    var sizes := FilesetSizes(filesets);
    assert (forall fs, f :: fs in filesets && f in fs.objectFiles ==> f.size >= 0) ==> Seqs.Sum(sizes) >= 0 by {
      if forall fs, f :: fs in filesets && f in fs.objectFiles ==> f.size >= 0 {
        forall i | 0 <= i < |sizes| ensures sizes[i] >= 0 {
          assert filesets[i] in filesets;
        }
        Seqs.SumNonNegative(sizes);
      }
    }
    Seqs.Sum(sizes)
  }

  /** The object rollup is additive over concatenated fileset lists, and 0 for none. */
  lemma {:induction false} FilesetsDataSizeConcat(a: seq<Fileset>, b: seq<Fileset>)
    ensures FilesetsDataSize(a + b) == FilesetsDataSize(a) + FilesetsDataSize(b)
  {
    var whole, parts := FilesetSizes(a + b), FilesetSizes(a) + FilesetSizes(b);
    forall i | 0 <= i < |whole| ensures whole[i] == parts[i] {
      if i < |a| {
        assert (a + b)[i] == a[i];
      } else {
        assert (a + b)[i] == b[i - |a|];
      }
    }
    assert whole == parts;
    Seqs.SumConcat(FilesetSizes(a), FilesetSizes(b));
  }

  /** The object's own files, source or not, never change its data size. */
  lemma ObjectSizeIgnoresOwnFiles(obj: IntellectualObject, files: seq<ObjectFile>)
    ensures ObjectTotalDataSize(obj.(objectFiles := files)) == ObjectTotalDataSize(obj)
  {
  }

  /**
   * The two-level rollup: an object's data size is the total size of the
   * source files across all of its filesets.
   */
  lemma {:induction false} ObjectSizeIsSourceFilesOfAllFilesets(filesets: seq<Fileset>)
    ensures FilesetsDataSize(filesets) == SourceDataSize(AllFilesetFiles(filesets))
  {
    if filesets != [] {
      ObjectSizeIsSourceFilesOfAllFilesets(filesets[1..]);
      FilesetsDataSizeConcat([filesets[0]], filesets[1..]);
      assert [filesets[0]] + filesets[1..] == filesets;
      SourceDataSizeConcat(filesets[0].objectFiles, AllFilesetFiles(filesets[1..]));
      assert FilesetsDataSize([filesets[0]]) == FilesetTotalDataSize(filesets[0]);
    }
  }

  function AllFilesetFiles(filesets: seq<Fileset>): seq<ObjectFile>
  {
    if filesets == [] then [] else filesets[0].objectFiles + AllFilesetFiles(filesets[1..])
  }

  /** Every alternate identifier of every collection, in collection order. */
  function CollectionAlternateIdentifiers(collections: seq<Collection>): seq<string>
  {
    if collections == [] then []
    else collections[0].alternateIdentifiers + CollectionAlternateIdentifiers(collections[1..])
  }

  /**
   * `IntellectualObject.collections_summary`. It lists every collection's
   * alternate identifiers in order: split on '/', it gives them back, provided
   * there is at least one and none contains '/'. With no collections the
   * summary is empty.
   */
  function CollectionsSummary(obj: IntellectualObject): (r: string)
    ensures obj.collections == [] ==> r == ""
    ensures var ids := CollectionAlternateIdentifiers(obj.collections);
            |ids| >= 1 && (forall i :: 0 <= i < |ids| ==> '/' !in ids[i]) ==>
              Text.Split(r, '/') == ids
  {
    var ids := CollectionAlternateIdentifiers(obj.collections);
    assert |ids| >= 1 && (forall i :: 0 <= i < |ids| ==> '/' !in ids[i]) ==>
             Text.Split(Text.Join(ids, '/'), '/') == ids by {
      if |ids| >= 1 && (forall i :: 0 <= i < |ids| ==> '/' !in ids[i]) {
        Text.SplitJoin(ids, '/');
      }
    }
    Text.Join(ids, '/')
  }

  /** The rollup example: source 100 and service 50 per fileset; two filesets make 200. */
  lemma RollupExample(src: ObjectFile, svc: ObjectFile, fs: Fileset, obj: IntellectualObject)
    requires src.fileFunction == SourceFunction && src.size == 100
    requires svc.fileFunction == "function:service" && svc.size == 50
    requires fs.objectFiles == [src, svc] && obj.filesets == [fs, fs]
    ensures FilesetTotalDataSize(fs) == 100
    ensures ObjectTotalDataSize(obj) == 200
  {
    assert FilesetTotalDataSize(fs) == 100 by {
      assert SourceDataSize([svc]) == 0;
      SourceDataSizeCons(src, [svc]);
      assert [src] + [svc] == [src, svc];
    }
    assert FilesetsDataSize([fs]) == 100 by {
      assert FilesetSizes([fs]) == [100];
      assert Seqs.Sum([100]) == 100 + Seqs.Sum([]);
    }
    FilesetsDataSizeConcat([fs], [fs]);
    assert [fs] + [fs] == [fs, fs];
  }

}
