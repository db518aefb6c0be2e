/**
 * The catalog service (dor/services/catalog.py): the object and collection
 * managers build a filtered query, count it, and return one page of it; `get`
 * demands exactly one row.
 */
module CatalogService {
  import opened Wrappers
  import Domain
  import Seqs
  import Text
  import Tables
  import Utils
  import CollectionRepository

  /** `.where(IntellectualObject.bin_identifier == IntellectualObject.identifier)`: the top-level objects. */
  function TopLevel(rows: seq<Tables.ObjectRow>): (r: seq<Tables.ObjectRow>)
    ensures forall x :: x in r <==> x in rows && x.binIdentifier == x.identifier
  {
    if rows == [] then []
    else
      assert forall x :: x in rows ==> x == rows[0] || x in rows[1..];
      (if rows[0].binIdentifier == rows[0].identifier then [rows[0]] else []) + TopLevel(rows[1..])
  }

  /** `filter_by(type=object_type)` when the type is truthy; no filter otherwise. */
  function ObjectsOfType(rows: seq<Tables.ObjectRow>, objectType: Option<string>): (r: seq<Tables.ObjectRow>)
    ensures !Text.Truthy(objectType) ==> r == rows
    ensures Text.Truthy(objectType) ==> forall x :: x in r <==> x in rows && x.objectType == objectType.value
  {
    if Text.Truthy(objectType) then Seqs.Select(rows, ObjectType, objectType.value) else rows
  }

  function ObjectType(row: Tables.ObjectRow): string
  {
    row.objectType
  }

  /**
   * The query `ObjectsManager.find` pages through: exactly the top-level
   * object rows, of the requested type when one is given, that a
   * current-revision row points at.
   */
  function ObjectsQuery(db: Tables.Database, objectType: Option<string>): (r: seq<Tables.ObjectRow>)
    ensures forall x :: x in r <==>
              && x in db.objects
              && x.binIdentifier == x.identifier
              && (Text.Truthy(objectType) ==> x.objectType == objectType.value)
              && Tables.Pointers(db.currentRevisions, x.id) > 0
  {
    Tables.JoinCurrent(ObjectsOfType(TopLevel(db.objects), objectType), db.currentRevisions)
  }

  /**
   * `Manager._find`: the total counts the whole query before LIMIT and
   * OFFSET; the items are at most `limit` rows of it from offset `start`.
   */
  method Find<T>(rows: seq<T>, start: int, limit: int) returns (page: Utils.Page<T>)
    requires start >= 0 && limit > 0
    ensures fresh(page) && page.Valid()
    ensures page.totalItems == |rows| && page.offset == start && page.limit == limit
    ensures page.items == Seqs.Window(rows, start, limit)
  {
    var totalItems := |rows|;
    var items := Seqs.Window(rows, start, limit);
    page := new Utils.Page(totalItems, start, limit, items);
  }

  /** `ObjectsManager.find`. */
  method FindObjects(db: Tables.Database, objectType: Option<string>, start: int, limit: int)
    returns (page: Utils.Page<Tables.ObjectRow>)
    requires start >= 0 && limit > 0
    ensures fresh(page) && page.Valid()
    ensures page.totalItems == |ObjectsQuery(db, objectType)| && page.offset == start && page.limit == limit
    ensures page.items == Seqs.Window(ObjectsQuery(db, objectType), start, limit)
    ensures forall x :: x in page.items ==>
              x in db.objects && x.binIdentifier == x.identifier
              && (Text.Truthy(objectType) ==> x.objectType == objectType.value)
              && Tables.Pointers(db.currentRevisions, x.id) > 0
  {
    page := Find(ObjectsQuery(db, objectType), start, limit);
    forall x | x in page.items ensures x in ObjectsQuery(db, objectType) {
      var i :| 0 <= i < |page.items| && page.items[i] == x;
    }
  }

  /** `CollectionsManager.find`. */
  method FindCollections(db: Tables.Database, collectionType: Option<string>, start: int, limit: int)
    returns (page: Utils.Page<Tables.CollectionRow>)
    requires start >= 0 && limit > 0
    ensures fresh(page) && page.Valid()
    ensures page.totalItems == |CollectionRepository.RowsOfType(db.collections, collectionType)|
    ensures page.offset == start && page.limit == limit
    ensures page.items == Seqs.Window(CollectionRepository.RowsOfType(db.collections, collectionType), start, limit)
    ensures forall c :: c in page.items ==>
              c in db.collections && (Text.Truthy(collectionType) ==> c.collectionType == collectionType.value)
  {
    var rows := CollectionRepository.RowsOfType(db.collections, collectionType);
    page := Find(rows, start, limit);
    forall c | c in page.items ensures c in rows {
      var i :| 0 <= i < |page.items| && page.items[i] == c;
    }
  }

  /**
   * `ObjectsManager.get`: the current-revision row of the identifier.
   * `scalar_one` raises instead of answering `None` when there is no such row.
   */
  function GetObject(db: Tables.Database, identifier: Domain.Uuid): (r: Result<Tables.ObjectRow, Tables.DbError>)
    ensures r.Success? ==> r.value in db.objects && r.value.identifier == identifier
                           && Tables.Pointers(db.currentRevisions, r.value.id) > 0
    ensures r == Failure(Tables.NoResultFound) <==>
              forall x :: x in db.objects && x.identifier == identifier ==> Tables.Pointers(db.currentRevisions, x.id) == 0
    ensures Tables.WellFormed(db) ==> r != Failure(Tables.MultipleResultsFound)
  {
    var rows := Tables.CurrentWithIdentifier(db, identifier);
    Tables.AtMostOneCurrent(db, identifier);
    assert rows != [] ==> rows[0] in rows;
    Tables.One(rows)
  }

  /** `CollectionsManager.get`: the collection row with the identifier; none is an error too. */
  function GetCollection(db: Tables.Database, identifier: Domain.Uuid): (r: Result<Tables.CollectionRow, Tables.DbError>)
    ensures r.Success? ==> r.value in db.collections && r.value.identifier == identifier
    ensures r == Failure(Tables.NoResultFound) <==> forall c :: c in db.collections ==> c.identifier != identifier
    ensures Tables.UniqueCollectionIdentifiers(db.collections) ==> r != Failure(Tables.MultipleResultsFound)
  {
    var rows := Seqs.Select(db.collections, CollectionRepository.RowIdentifier, identifier);
    Seqs.SelectNone(db.collections, CollectionRepository.RowIdentifier, identifier);
    assert Tables.UniqueCollectionIdentifiers(db.collections) ==> |rows| <= 1 by {
      if Tables.UniqueCollectionIdentifiers(db.collections) {
        Seqs.SelectDistinct(db.collections, CollectionRepository.RowIdentifier, identifier);
      }
    }
    Tables.One(rows)
  }

  /**
   * Pages of one row over two rows: the first page holds the first row, the
   * second page the second, and the third page nothing; each page knows the
   * total is 2 and where its neighbours start.
   */
  method PaginationBoundaryExample(a: Tables.ObjectRow, b: Tables.ObjectRow)
  {
    var rows := [a, b];
    var first := Find(rows, 0, 1);
    assert first.items == [a] && first.nextOffset == 1 && first.previousOffset == -1;
    var second := Find(rows, 1, 1);
    assert second.items == [b] && second.nextOffset == -1 && second.previousOffset == 0;
    var third := Find(rows, 2, 1);
    assert third.items == [] && third.totalItems == 2;
  }
}
