/**
 * The collection repositories (dor/adapters/collection_repository.py): the
 * in-memory list with its filter and pagination, and the SQL-backed one, whose
 * rows keep a collection's alternate identifiers as one comma-joined string.
 */
module CollectionRepository {
  import opened Wrappers
  import opened Domain
  import Seqs
  import Text
  import Tables

  function CollectionId(c: Collection): Uuid
  {
    c.identifier
  }

  function CollectionType(c: Collection): string
  {
    c.collectionType
  }

  /** Every added collection, in the order added. */
  class MemoryCollectionRepository {
    var collections: seq<Collection>

    constructor ()
      ensures collections == []
    {
      collections := [];
    }

    /** `add`: appends; what was there before keeps its place. */
    method Add(c: Collection)
      modifies this
      ensures collections == old(collections) + [c]
    {
      collections := collections + [c];
    }

    /** `get`: the first collection added with the identifier, or `None`. */
    method Get(identifier: Uuid) returns (r: Option<Collection>)
      ensures r == Seqs.FindFirst(collections, CollectionId, identifier)
    {
      var i := 0;
      while i < |collections|
        invariant 0 <= i <= |collections|
        invariant Seqs.FindFirst(collections, CollectionId, identifier) == Seqs.FindFirst(collections[i..], CollectionId, identifier)
      {
        if collections[i].identifier == identifier {
          return Some(collections[i]);
        }
        assert collections[i..][1..] == collections[(i + 1)..];
        i := i + 1;
      }
      return None;
    }

    /**
     * `filter`: a falsy type (`None` or `""`) applies no filter; any other type
     * keeps exactly the collections of that type, in the order added.
     */
    function Filter(collectionType: Option<string>): (r: seq<Collection>)
      reads this
      ensures !Text.Truthy(collectionType) ==> r == collections
      ensures Text.Truthy(collectionType) ==>
                forall c :: c in r <==> c in collections && c.collectionType == collectionType.value
      ensures |r| <= |collections|
    {
      if Text.Truthy(collectionType) then Seqs.Select(collections, CollectionType, collectionType.value)
      else collections
    }

    /**
     * `find`: the page of at most `limit` matching collections that begins at
     * zero-based position `start` of the filtered list.
     */
    function Find(collectionType: Option<string>, start: nat, limit: nat): (r: seq<Collection>)
      reads this
      ensures |r| <= limit
      ensures start >= FindTotal(collectionType) ==> r == []
      ensures start < FindTotal(collectionType) ==> |r| == Seqs.Min(limit, FindTotal(collectionType) - start)
      ensures forall i :: 0 <= i < |r| ==> r[i] == Filter(collectionType)[start + i]
    {
      Seqs.Window(Filter(collectionType), start, limit)
    }

    /** `find_total`: how many collections the filter keeps. */
    function FindTotal(collectionType: Option<string>): (r: nat)
      reads this
      ensures r <= |collections|
      ensures !Text.Truthy(collectionType) ==> r == |collections|
    {
      |Filter(collectionType)|
    }

    /**
     * `find_all`: the unfiltered `filter`, which is also the single `find`
     * page as long as the repository.
     */
    function FindAll(): (r: seq<Collection>)
      reads this
      ensures r == Filter(None)
      ensures r == Find(None, 0, |collections|)
    {
      Seqs.WindowAll(collections);
      collections
    }
  }

  /** Consecutive `find` pages together are one longer page. */
  lemma FindPagesAdjoin(repo: MemoryCollectionRepository, t: Option<string>, start: nat, m: nat, n: nat)
    ensures repo.Find(t, start, m) + repo.Find(t, start + m, n) == repo.Find(t, start, m + n)
  {
    Seqs.WindowsAdjoin(repo.Filter(t), start, m, n);
  }

  /** The repository tests as a client: add one collection, then get and list it. */
  method CollectionRepositoryExample(c: Collection)
  {
    var repo := new MemoryCollectionRepository();
    repo.Add(c);
    assert repo.collections == [c];
    var found := repo.Get(c.identifier);
    assert found == Some(c);
    assert repo.FindAll() == [c];
    assert repo.FindTotal(Some(c.collectionType)) == 1 by {
      assert repo.Filter(Some(c.collectionType)) == [c] + Seqs.Select([], CollectionType, c.collectionType)
             || c.collectionType == "";
    }
  }

  // ---------------------------------------------------------------------
  // The SQL-backed repository over a snapshot of the tables

  /**
   * `model_to_collection`: the columns are copied and the stored string is
   * split on ','. What comes back always has at least one alternate
   * identifier, none containing ',', and they join back to the stored string.
   */
  function ModelToCollection(row: Tables.CollectionRow): (r: Collection)
    ensures r.identifier == row.identifier && r.collectionType == row.collectionType
    ensures r.title == row.title && r.description == row.description
    ensures r.createdAt == row.createdAt && r.updatedAt == row.updatedAt
    ensures RoundTrips(r)
    ensures Text.Join(r.alternateIdentifiers, ',') == row.alternateIdentifiers
  {
    Text.JoinSplit(row.alternateIdentifiers, ',');
    Collection(row.identifier, Text.Split(row.alternateIdentifiers, ','), row.title, row.description,
               row.collectionType, row.createdAt, row.updatedAt)
  }

  /**
   * The row `add` writes for a collection: the columns are copied and the
   * alternate identifiers joined with ','. The joined string splits back into
   * the list when it round-trips, and no alternate identifier stores "".
   */
  function CollectionToModel(c: Collection, id: nat): (r: Tables.CollectionRow)
    ensures r.id == id && r.identifier == c.identifier && r.collectionType == c.collectionType
    ensures r.title == c.title && r.description == c.description
    ensures r.createdAt == c.createdAt && r.updatedAt == c.updatedAt
    ensures RoundTrips(c) ==> Text.Split(r.alternateIdentifiers, ',') == c.alternateIdentifiers
    ensures c.alternateIdentifiers == [] ==> r.alternateIdentifiers == ""
  {
    assert RoundTrips(c) ==> Text.Split(Text.Join(c.alternateIdentifiers, ','), ',') == c.alternateIdentifiers by {
      if RoundTrips(c) {
        Text.SplitJoin(c.alternateIdentifiers, ',');
      }
    }
    Tables.CollectionRow(id, c.identifier, Text.Join(c.alternateIdentifiers, ','), c.collectionType,
                         c.createdAt, c.updatedAt, c.title, c.description)
  }

  predicate RoundTrips(c: Collection)
  {
    |c.alternateIdentifiers| >= 1 && forall i :: 0 <= i < |c.alternateIdentifiers| ==> ',' !in c.alternateIdentifiers[i]
  }

  /**
   * A collection written and read back is the same collection when it has at
   * least one alternate identifier and none contains ','; with none it comes
   * back with the single identifier "". A stored row read and written back is
   * always the same row.
   */
  lemma CodecRoundTrip(c: Collection, row: Tables.CollectionRow)
    ensures RoundTrips(c) ==> ModelToCollection(CollectionToModel(c, row.id)) == c
    ensures c.alternateIdentifiers == [] ==> ModelToCollection(CollectionToModel(c, row.id)).alternateIdentifiers == [""]
    ensures CollectionToModel(ModelToCollection(row), row.id) == row
  {
  }

  /** A primary key no stored collection row has. */
  function FreshId(rows: seq<Tables.CollectionRow>): (r: nat)
    ensures forall row :: row in rows ==> row.id < r
  {
    if rows == [] then 0
    else
      var rest := FreshId(rows[1..]);
      assert forall row :: row in rows ==> row == rows[0] || row in rows[1..];
      if rows[0].id < rest then rest else rows[0].id + 1
  }

  function RowIdentifier(row: Tables.CollectionRow): Uuid
  {
    row.identifier
  }

  /**
   * `add` followed by the commit: the new row, or `IntegrityError` when the
   * identifier is already stored (the identifier column is unique).
   */
  function SqlAdd(db: Tables.Database, c: Collection): (r: Result<Tables.Database, Tables.DbError>)
    ensures r.Failure? <==> exists row :: row in db.collections && row.identifier == c.identifier
    ensures r.Failure? ==> r.error == Tables.IntegrityError
    ensures r.Success? ==> r.value == db.(collections := db.collections + [CollectionToModel(c, FreshId(db.collections))])
  {
    var rows := Seqs.Select(db.collections, RowIdentifier, c.identifier);
    if rows != [] then
      assert rows[0] in rows;
      Failure(Tables.IntegrityError)
    else Success(db.(collections := db.collections + [CollectionToModel(c, FreshId(db.collections))]))
  }

  /**
   * `get`: `None` exactly when no row has the identifier, otherwise the row
   * decoded; more than one row is the error `one()` raises, which cannot
   * happen while identifiers are unique.
   */
  function SqlGet(db: Tables.Database, identifier: Uuid): (r: Result<Option<Collection>, Tables.DbError>)
    ensures r.Success? && r.value.None? <==> forall row :: row in db.collections ==> row.identifier != identifier
    ensures r.Success? && r.value.Some? ==>
              exists row :: row in db.collections && row.identifier == identifier && r.value.value == ModelToCollection(row)
    ensures r.Failure? ==> r.error == Tables.MultipleResultsFound
    ensures Tables.UniqueCollectionIdentifiers(db.collections) ==> r.Success?
  {
    var rows := Seqs.Select(db.collections, RowIdentifier, identifier);
    Seqs.SelectNone(db.collections, RowIdentifier, identifier);
    assert Tables.UniqueCollectionIdentifiers(db.collections) ==> |rows| <= 1 by {
      if Tables.UniqueCollectionIdentifiers(db.collections) {
        Seqs.SelectDistinct(db.collections, RowIdentifier, identifier);
      }
    }
    var one := Tables.One(rows);
    if one.Success? then Success(Some(ModelToCollection(one.value)))
    else if one.error.NoResultFound? then Success(None)
    else Failure(one.error)
  }

  /** `add` keeps the stored identifiers distinct. */
  lemma SqlAddKeepsIdentifiersUnique(db: Tables.Database, c: Collection)
    requires Tables.UniqueCollectionIdentifiers(db.collections)
    requires SqlAdd(db, c).Success?
    ensures Tables.UniqueCollectionIdentifiers(SqlAdd(db, c).value.collections)
  {
    var rows := SqlAdd(db, c).value.collections;
    forall i, j | 0 <= i < |rows| && 0 <= j < |rows| && rows[i].identifier == rows[j].identifier
      ensures i == j
    {
      if i < |db.collections| { assert rows[i] in db.collections; }
      if j < |db.collections| { assert rows[j] in db.collections; }
    }
  }

  /**
   * A collection added and then read back with `get` is what the codec makes
   * of it, and so the same collection when its alternate identifiers survive
   * the codec.
   */
  lemma SqlAddThenGet(db: Tables.Database, c: Collection)
    requires SqlAdd(db, c).Success?
    ensures SqlGet(SqlAdd(db, c).value, c.identifier) == Success(Some(ModelToCollection(CollectionToModel(c, FreshId(db.collections)))))
    ensures RoundTrips(c) ==> SqlGet(SqlAdd(db, c).value, c.identifier) == Success(Some(c))
  {
    var row := CollectionToModel(c, FreshId(db.collections));
    Seqs.SelectAppend(db.collections, row, RowIdentifier, c.identifier);
    Seqs.SelectNone(db.collections, RowIdentifier, c.identifier);
    assert Seqs.Select(db.collections + [row], RowIdentifier, c.identifier) == [row];
    CodecRoundTrip(c, row);
  }

  /** `.where(Collection.type == collection_type)` when the type is truthy. */
  function RowsOfType(rows: seq<Tables.CollectionRow>, collectionType: Option<string>): (r: seq<Tables.CollectionRow>)
    ensures !Text.Truthy(collectionType) ==> r == rows
    ensures Text.Truthy(collectionType) ==>
              forall row :: row in r <==> row in rows && row.collectionType == collectionType.value
    ensures |r| <= |rows|
  {
    if Text.Truthy(collectionType) then Seqs.Select(rows, RowType, collectionType.value) else rows
  }

  function RowType(row: Tables.CollectionRow): string
  {
    row.collectionType
  }

  function ToCollections(rows: seq<Tables.CollectionRow>): (r: seq<Collection>)
    ensures |r| == |rows| && forall i :: 0 <= i < |rows| ==> r[i] == ModelToCollection(rows[i])
  {
    seq(|rows|, i requires 0 <= i < |rows| => ModelToCollection(rows[i]))
  }

  /**
   * `find`: the filter, then OFFSET `start` and LIMIT `limit`: at most `limit`
   * collections, decoded from the filtered rows from zero-based `start` on.
   */
  function SqlFind(db: Tables.Database, collectionType: Option<string>, start: nat, limit: nat): (r: seq<Collection>)
    ensures |r| <= limit
    ensures start >= SqlFindTotal(db, collectionType) ==> r == []
    ensures start < SqlFindTotal(db, collectionType) ==> |r| == Seqs.Min(limit, SqlFindTotal(db, collectionType) - start)
    ensures forall i :: 0 <= i < |r| ==> r[i] == ModelToCollection(RowsOfType(db.collections, collectionType)[start + i])
  {
    ToCollections(Seqs.Window(RowsOfType(db.collections, collectionType), start, limit))
  }

  /**
   * `find_total`: the count of the same filtered query, before any OFFSET or
   * LIMIT; without a type, every stored collection.
   */
  function SqlFindTotal(db: Tables.Database, collectionType: Option<string>): (r: nat)
    ensures r <= |db.collections|
    ensures !Text.Truthy(collectionType) ==> r == |db.collections|
  {
    |RowsOfType(db.collections, collectionType)|
  }

  /** `find_all`: every row decoded, in table order; the unfiltered `find` as long as the table. */
  function SqlFindAll(db: Tables.Database): (r: seq<Collection>)
    ensures |r| == |db.collections| && forall i :: 0 <= i < |r| ==> r[i] == ModelToCollection(db.collections[i])
    ensures r == SqlFind(db, None, 0, |db.collections|)
  {
    Seqs.WindowAll(db.collections);
    ToCollections(db.collections)
  }

  /** Rows that are, one for one, what `add` writes for a list of collections. */
  predicate Mirrors(rows: seq<Tables.CollectionRow>, cs: seq<Collection>)
  {
    |rows| == |cs| && forall i :: 0 <= i < |rows| ==> rows[i] == CollectionToModel(cs[i], rows[i].id)
  }

  lemma {:induction false} MirrorsOfType(rows: seq<Tables.CollectionRow>, cs: seq<Collection>, collectionType: Option<string>)
    requires Mirrors(rows, cs)
    ensures Mirrors(RowsOfType(rows, collectionType),
                    if Text.Truthy(collectionType) then Seqs.Select(cs, CollectionType, collectionType.value) else cs)
  {
    if Text.Truthy(collectionType) && rows != [] {
      var k := collectionType.value;
      assert Mirrors(rows[1..], cs[1..]) by {
        assert forall i :: 0 <= i < |rows| - 1 ==> rows[1..][i] == rows[i + 1] && cs[1..][i] == cs[i + 1];
      }
      MirrorsOfType(rows[1..], cs[1..], collectionType);
      var restRows, restCs := Seqs.Select(rows[1..], RowType, k), Seqs.Select(cs[1..], CollectionType, k);
      assert rows[0] == CollectionToModel(cs[0], rows[0].id);
      assert Seqs.Select(rows, RowType, k) == (if RowType(rows[0]) == k then [rows[0]] else []) + restRows;
      assert Seqs.Select(cs, CollectionType, k) == (if CollectionType(cs[0]) == k then [cs[0]] else []) + restCs;
      if rows[0].collectionType == k {
        MirrorsCons(rows[0], cs[0], restRows, restCs);
      } else {
        assert [] + restRows == restRows && [] + restCs == restCs;
      }
    }
  }

  lemma MirrorsCons(row: Tables.CollectionRow, c: Collection, rows: seq<Tables.CollectionRow>, cs: seq<Collection>)
    requires row == CollectionToModel(c, row.id) && Mirrors(rows, cs)
    ensures Mirrors([row] + rows, [c] + cs)
  {
    assert forall i :: 1 <= i < |rows| + 1 ==> ([row] + rows)[i] == rows[i - 1] && ([c] + cs)[i] == cs[i - 1];
  }

  /**
   * The two backends agree: over rows written by `add` from a list of
   * collections whose alternate identifiers survive the codec, the SQL
   * `find`, `find_total` and `find_all` give what the in-memory ones give
   * over that list.
   */
  lemma SqlFindMatchesMemory(db: Tables.Database, repo: MemoryCollectionRepository, collectionType: Option<string>, start: nat, limit: nat)
    requires Mirrors(db.collections, repo.collections)
    requires forall c :: c in repo.collections ==> RoundTrips(c)
    ensures SqlFind(db, collectionType, start, limit) == repo.Find(collectionType, start, limit)
    ensures SqlFindTotal(db, collectionType) == repo.FindTotal(collectionType)
    ensures SqlFindAll(db) == repo.FindAll()
  {
    var rows, cs := RowsOfType(db.collections, collectionType), repo.Filter(collectionType);
    MirrorsOfType(db.collections, repo.collections, collectionType);
    var page := Seqs.Window(rows, start, limit);
    forall i | 0 <= i < |page| ensures ModelToCollection(page[i]) == repo.Find(collectionType, start, limit)[i] {
      assert cs[start + i] in repo.collections;
      CodecRoundTrip(cs[start + i], page[i]);
    }
    forall i | 0 <= i < |repo.collections| ensures ModelToCollection(db.collections[i]) == repo.collections[i] {
      assert repo.collections[i] in repo.collections;
      CodecRoundTrip(repo.collections[i], db.collections[i]);
    }
  }
}
