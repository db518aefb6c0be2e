/** The in-memory catalog (dor/adapters/catalog.py). */
module CatalogAdapter {
  import opened Wrappers
  import opened Records
  import Domain
  import Seqs

  function ObjectId(o: IntellectualObject): Domain.Uuid
  {
    o.identifier
  }

  /** Every added object, in the order added; nothing is replaced or removed. */
  class MemoryCatalog {
    var objects: seq<IntellectualObject>

    constructor ()
      ensures objects == []
    {
      objects := [];
    }

    /** `add`: appends the object, whatever its identifier or revision. */
    method Add(o: IntellectualObject)
      modifies this
      ensures objects == old(objects) + [o]
    {
      objects := objects + [o];
    }

    /**
     * `get`: the first object added with the identifier, or `None`. There is
     * no current-revision pointer here, so a later revision never wins.
     */
    method Get(identifier: Domain.Uuid) returns (r: Option<IntellectualObject>)
      ensures r == Seqs.FindFirst(objects, ObjectId, identifier)
    {
      var i := 0;
      while i < |objects|
        invariant 0 <= i <= |objects|
        invariant Seqs.FindFirst(objects, ObjectId, identifier) == Seqs.FindFirst(objects[i..], ObjectId, identifier)
      {
        if objects[i].identifier == identifier {
          return Some(objects[i]);
        }
        assert objects[i..][1..] == objects[(i + 1)..];
        i := i + 1;
      }
      return None;
    }
  }

  /**
   * `get` answers `None` exactly when no stored object has the identifier, and
   * otherwise the earliest-added such object.
   */
  lemma GetIsEarliest(objects: seq<IntellectualObject>, identifier: Domain.Uuid)
    ensures Seqs.FindFirst(objects, ObjectId, identifier).None? <==>
              forall i :: 0 <= i < |objects| ==> objects[i].identifier != identifier
    ensures Seqs.FindFirst(objects, ObjectId, identifier).Some? ==>
              exists i :: 0 <= i < |objects| && objects[i] == Seqs.FindFirst(objects, ObjectId, identifier).value
                          && forall j :: 0 <= j < i ==> objects[j].identifier != identifier
  {
    if Seqs.FindFirst(objects, ObjectId, identifier).Some? {
      Seqs.FindFirstIsEarliest(objects, ObjectId, identifier);
    }
  }

  /**
   * Re-adding an identifier, say as a later revision, does not change what
   * `get` returns for it: the first revision added stays the answer.
   */
  lemma ReAddKeepsFirst(objects: seq<IntellectualObject>, o: IntellectualObject)
    requires Seqs.FindFirst(objects, ObjectId, o.identifier).Some?
    ensures Seqs.FindFirst(objects + [o], ObjectId, o.identifier) == Seqs.FindFirst(objects, ObjectId, o.identifier)
  {
    Seqs.FindFirstAppend(objects, o, ObjectId, o.identifier);
  }

  /** Adding revision 1 and then revision 2 of an identifier: `get` returns revision 1. */
  lemma FirstRevisionWins(objects: seq<IntellectualObject>, rev1: IntellectualObject, rev2: IntellectualObject)
    requires forall i :: 0 <= i < |objects| ==> objects[i].identifier != rev1.identifier
    requires rev2.identifier == rev1.identifier && rev2.revisionNumber > rev1.revisionNumber
    ensures Seqs.FindFirst(objects + [rev1] + [rev2], ObjectId, rev1.identifier) == Some(rev1)
  {
    Seqs.FindFirstAppend(objects, rev1, ObjectId, rev1.identifier);
    Seqs.FindFirstAppend(objects + [rev1], rev2, ObjectId, rev1.identifier);
  }

  /** A catalog holding only `o` returns `o` for its identifier (tests/test_catalog.py). */
  lemma GetOnlyObject(o: IntellectualObject)
    ensures Seqs.FindFirst([o], ObjectId, o.identifier) == Some(o)
  {
  }

  /** The catalog tests as a client: add one object, then read it back. */
  method CatalogExample(o: IntellectualObject)
  {
    var catalog := new MemoryCatalog();
    catalog.Add(o);
    assert |catalog.objects| == 1 && catalog.objects[0] == o;
    var found := catalog.Get(o.identifier);
    assert found == Some(o);
  }
}
