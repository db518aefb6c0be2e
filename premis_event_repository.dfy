/**
 * The PREMIS event repositories (dor/adapters/premis_event_repository.py):
 * the in-memory list, and the SQL-backed one that links a stored event to the
 * current revision of the object it names.
 */
module PremisEventRepository {
  import opened Wrappers
  import Domain
  import Seqs
  import Tables

  /** A PREMIS event together with the identifier of the object it concerns, if any. */
  datatype PremisEventConnected = PremisEventConnected(
    identifier: Domain.Uuid,
    eventType: string,
    detail: string,
    datetime: Domain.Timestamp,
    outcome: string,
    outcomeDetailNote: string,
    linkingAgent: Domain.LinkingAgent,
    intellectualObjectIdentifier: Option<Domain.Uuid>)

  function EventId(e: PremisEventConnected): Domain.Uuid
  {
    e.identifier
  }

  /** Every added event, in the order added. */
  class MemoryPremisEventRepository {
    var events: seq<PremisEventConnected>

    constructor ()
      ensures events == []
    {
      events := [];
    }

    /** `add`: appends; what was there before keeps its place. */
    method Add(e: PremisEventConnected)
      modifies this
      ensures events == old(events) + [e]
    {
      events := events + [e];
    }

    /** `get`: the first event added with the identifier, or `None`. */
    method Get(identifier: Domain.Uuid) returns (r: Option<PremisEventConnected>)
      ensures r == Seqs.FindFirst(events, EventId, identifier)
    {
      var i := 0;
      while i < |events|
        invariant 0 <= i <= |events|
        invariant Seqs.FindFirst(events, EventId, identifier) == Seqs.FindFirst(events[i..], EventId, identifier)
      {
        if events[i].identifier == identifier {
          return Some(events[i]);
        }
        assert events[i..][1..] == events[(i + 1)..];
        i := i + 1;
      }
      return None;
    }
  }

  /** After adding an event whose identifier is new, `get` with that identifier returns the event. */
  lemma GetAfterAddFresh(events: seq<PremisEventConnected>, e: PremisEventConnected)
    requires forall i :: 0 <= i < |events| ==> events[i].identifier != e.identifier
    ensures Seqs.FindFirst(events + [e], EventId, e.identifier) == Some(e)
  {
    Seqs.FindFirstAppend(events, e, EventId, e.identifier);
  }

  /** The repository tests as a client: add one event, then read it back. */
  method PremisEventRepositoryExample(e: PremisEventConnected)
  {
    var repo := new MemoryPremisEventRepository();
    repo.Add(e);
    assert |repo.events| == 1 && repo.events[0] == e;
    var found := repo.Get(e.identifier);
    assert found == Some(e);
  }

  // ---------------------------------------------------------------------
  // The SQL-backed repository over a snapshot of the tables

  /**
   * `_get_latest_object`: the object row with the identifier that a
   * current-revision row points at, `None` when there is none, and the error
   * `one()` raises when the join yields more than one row.
   */
  function GetLatestObject(db: Tables.Database, identifier: Domain.Uuid): (r: Result<Option<Tables.ObjectRow>, Tables.DbError>)
    ensures r.Success? && r.value.Some? ==>
              r.value.value in db.objects && r.value.value.identifier == identifier
              && Tables.Pointers(db.currentRevisions, r.value.value.id) > 0
    ensures r == Success(None) <==>
              forall o :: o in db.objects && o.identifier == identifier ==> Tables.Pointers(db.currentRevisions, o.id) == 0
    ensures Tables.WellFormed(db) ==> r.Success?
  {
    var rows := Tables.CurrentWithIdentifier(db, identifier);
    Tables.AtMostOneCurrent(db, identifier);
    assert rows != [] ==> rows[0] in rows;
    var one := Tables.One(rows);
    if one.Success? then Success(Some(one.value))
    else if one.error.NoResultFound? then Success(None)
    else Failure(one.error)
  }

  /**
   * The row `add` writes: the event's fields, the agent in three columns, and
   * the object link.
   */
  function EventToModel(e: PremisEventConnected, link: Option<nat>): (r: Tables.EventRow)
    ensures r.identifier == e.identifier && r.intellectualObjectId == link
    ensures r.eventType == e.eventType && r.dateTime == e.datetime && r.detail == e.detail
    ensures r.outcome == e.outcome && r.outcomeDetailNote == e.outcomeDetailNote
    ensures Domain.LinkingAgent(r.linkingAgentValue, r.linkingAgentType, r.linkingAgentRole) == e.linkingAgent
  {
    Tables.EventRow(e.identifier, e.eventType, e.datetime, e.detail, e.outcome, e.outcomeDetailNote,
                    e.linkingAgent.value, e.linkingAgent.agentType, e.linkingAgent.role, link)
  }

  function ObjectPrimaryKey(o: Tables.ObjectRow): nat
  {
    o.id
  }

  /**
   * `model.intellectual_object.identifier if model.intellectual_object else
   * None`: the identifier of the linked object row, or `None` when the event
   * has no link or the link leads to no row.
   */
  function LinkedIdentifier(objects: seq<Tables.ObjectRow>, row: Tables.EventRow): (r: Option<Domain.Uuid>)
    ensures r.None? <==> row.intellectualObjectId.None? || forall o :: o in objects ==> o.id != row.intellectualObjectId.value
    ensures r.Some? ==> exists o :: o in objects && Some(o.id) == row.intellectualObjectId && r.value == o.identifier
  {
    if row.intellectualObjectId.None? then None
    else
      var linked := Seqs.FindFirst(objects, ObjectPrimaryKey, row.intellectualObjectId.value);
      if linked.None? then None else Some(linked.value.identifier)
  }

  /**
   * `model_to_premis_event_connected`: the columns are copied, the agent is
   * rebuilt from its three columns, and the object identifier is the linked
   * row's.
   */
  function ModelToEvent(objects: seq<Tables.ObjectRow>, row: Tables.EventRow): (r: PremisEventConnected)
    ensures r.identifier == row.identifier && r.intellectualObjectIdentifier == LinkedIdentifier(objects, row)
    ensures r.eventType == row.eventType && r.datetime == row.dateTime && r.detail == row.detail
    ensures r.outcome == row.outcome && r.outcomeDetailNote == row.outcomeDetailNote
    ensures r.linkingAgent == Domain.LinkingAgent(row.linkingAgentValue, row.linkingAgentType, row.linkingAgentRole)
  {
    PremisEventConnected(row.identifier, row.eventType, row.detail, row.dateTime, row.outcome, row.outcomeDetailNote,
                         Domain.LinkingAgent(row.linkingAgentValue, row.linkingAgentType, row.linkingAgentRole),
                         LinkedIdentifier(objects, row))
  }

  /**
   * Writing an event and reading the row back keeps the identifier, type,
   * date, detail, outcome, note and the three linking-agent fields, whatever
   * the link and whatever the object rows; a stored row read and written back
   * with its own link is the same row.
   */
  lemma ConversionKeepsFields(objects: seq<Tables.ObjectRow>, e: PremisEventConnected, link: Option<nat>, row: Tables.EventRow)
    ensures ModelToEvent(objects, EventToModel(e, link)).(intellectualObjectIdentifier := e.intellectualObjectIdentifier) == e
    ensures link.None? ==> ModelToEvent(objects, EventToModel(e, link)).intellectualObjectIdentifier.None?
    ensures EventToModel(ModelToEvent(objects, row), row.intellectualObjectId) == row
  {
  }

  function EventIdentifier(row: Tables.EventRow): Domain.Uuid
  {
    row.identifier
  }

  /**
   * `add` followed by the commit. An event naming an object is linked to that
   * identifier's current-revision row, or to nothing when there is none; the
   * insert fails when the event identifier is already stored.
   */
  function SqlAdd(db: Tables.Database, e: PremisEventConnected): (r: Result<Tables.Database, Tables.DbError>)
    ensures r.Failure? && r.error == Tables.IntegrityError ==>
              exists row :: row in db.events && row.identifier == e.identifier
    ensures r.Failure? ==> r.error != Tables.NoResultFound
    ensures Tables.WellFormed(db) && (forall row :: row in db.events ==> row.identifier != e.identifier) ==> r.Success?
    ensures Tables.WellFormed(db) && (exists row :: row in db.events && row.identifier == e.identifier) ==>
              r == Failure(Tables.IntegrityError)
    ensures r.Success? ==>
              && r.value.(events := db.events) == db
              && |r.value.events| == |db.events| + 1 && r.value.events[..|db.events|] == db.events
              && var row := r.value.events[|db.events|];
              && row == EventToModel(e, row.intellectualObjectId)
              && (row.intellectualObjectId.Some? <==>
                   e.intellectualObjectIdentifier.Some?
                   && exists o :: o in db.objects && o.identifier == e.intellectualObjectIdentifier.value
                                  && Tables.Pointers(db.currentRevisions, o.id) > 0)
              && (row.intellectualObjectId.Some? ==>
                   exists o :: o in db.objects && o.id == row.intellectualObjectId.value
                               && o.identifier == e.intellectualObjectIdentifier.value
                               && Tables.Pointers(db.currentRevisions, o.id) > 0)
  {
    var link :=
      if e.intellectualObjectIdentifier.None? then Success(None)
      else
        var latest := GetLatestObject(db, e.intellectualObjectIdentifier.value);
        if latest.Failure? then Failure(latest.error)
        else if latest.value.None? then Success(None)
        else Success(Some(latest.value.value.id));
    var rows := Seqs.Select(db.events, EventIdentifier, e.identifier);
    Seqs.SelectNone(db.events, EventIdentifier, e.identifier);
    if link.Failure? then Failure(link.error)
    else if rows != [] then
      assert rows[0] in rows;
      Failure(Tables.IntegrityError)
    else Success(db.(events := db.events + [EventToModel(e, link.value)]))
  }

  /**
   * `get`: `None` exactly when no event has the identifier, otherwise the row
   * converted; more than one row is the error `one()` raises, which cannot
   * happen while event identifiers are unique.
   */
  function SqlGet(db: Tables.Database, identifier: Domain.Uuid): (r: Result<Option<PremisEventConnected>, Tables.DbError>)
    ensures r.Success? && r.value.None? <==> forall row :: row in db.events ==> row.identifier != identifier
    ensures r.Success? && r.value.Some? ==>
              exists row :: row in db.events && row.identifier == identifier && r.value.value == ModelToEvent(db.objects, row)
    ensures r.Failure? ==> r.error == Tables.MultipleResultsFound
    ensures Tables.UniqueEventIdentifiers(db.events) ==> r.Success?
  {
    var rows := Seqs.Select(db.events, EventIdentifier, identifier);
    Seqs.SelectNone(db.events, EventIdentifier, identifier);
    assert Tables.UniqueEventIdentifiers(db.events) ==> |rows| <= 1 by {
      if Tables.UniqueEventIdentifiers(db.events) {
        Seqs.SelectDistinct(db.events, EventIdentifier, identifier);
      }
    }
    var one := Tables.One(rows);
    if one.Success? then Success(Some(ModelToEvent(db.objects, one.value)))
    else if one.error.NoResultFound? then Success(None)
    else Failure(one.error)
  }

  /** Under distinct primary keys, following a link finds the row it was made from. */
  lemma LinkFindsRow(objects: seq<Tables.ObjectRow>, o: Tables.ObjectRow)
    requires Tables.UniqueObjectIds(objects) && o in objects
    ensures Seqs.FindFirst(objects, ObjectPrimaryKey, o.id) == Some(o)
  {
    var found := Seqs.FindFirst(objects, ObjectPrimaryKey, o.id);
    var i :| 0 <= i < |objects| && objects[i] == o;
    var j :| 0 <= j < |objects| && objects[j] == found.value;
  }

  /**
   * An event added and read back: every field but the object identifier is
   * kept, and the object identifier is kept exactly when the named object has
   * a current revision; otherwise it reads back as `None`.
   */
  lemma SqlAddThenGet(db: Tables.Database, e: PremisEventConnected)
    requires Tables.WellFormed(db)
    requires SqlAdd(db, e).Success?
    ensures SqlGet(SqlAdd(db, e).value, e.identifier).Success?
    ensures var got := SqlGet(SqlAdd(db, e).value, e.identifier).value;
            got.Some? && got.value.(intellectualObjectIdentifier := e.intellectualObjectIdentifier) == e
    ensures var got := SqlGet(SqlAdd(db, e).value, e.identifier).value.value;
            got.intellectualObjectIdentifier ==
              if e.intellectualObjectIdentifier.Some?
                 && exists o :: o in db.objects && o.identifier == e.intellectualObjectIdentifier.value
                                && Tables.Pointers(db.currentRevisions, o.id) > 0
              then e.intellectualObjectIdentifier
              else None
  {
    var db' := SqlAdd(db, e).value;
    var row := db'.events[|db'.events| - 1];
    assert db'.events == db.events + [row];
    Seqs.SelectNone(db.events, EventIdentifier, e.identifier);
    Seqs.SelectAppend(db.events, row, EventIdentifier, e.identifier);
    ConversionKeepsFields(db.objects, e, row.intellectualObjectId, row);
    if e.intellectualObjectIdentifier.Some? {
      var latest := GetLatestObject(db, e.intellectualObjectIdentifier.value);
      if latest.value.Some? {
        LinkFindsRow(db.objects, latest.value.value);
      }
    }
  }

  /**
   * A link, once stored, reads back the same after more object rows are
   * appended, as long as the linked row is among the earlier ones.
   */
  lemma LinkStableUnderNewObjects(objects: seq<Tables.ObjectRow>, more: seq<Tables.ObjectRow>, row: Tables.EventRow)
    requires LinkedIdentifier(objects, row).Some?
    ensures LinkedIdentifier(objects + more, row) == LinkedIdentifier(objects, row)
  {
    Seqs.FindFirstConcat(objects, more, ObjectPrimaryKey, row.intellectualObjectId.value);
  }
}
